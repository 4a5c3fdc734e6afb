/** The code generator: the emitted lines, the class table, the memo of
    compiled dispatch tables and the variable-to-class bindings, updated in
    place by the compile methods. Every method is proved to do exactly what
    the corresponding definition of the Lowering, Flattening and Compilation
    modules describes; a failure is reported as Fail(e), standing for the
    exception the source raises. */
module Generator {
  import opened Ast
  import opened Text
  import opened VTables
  import opened ClassTable
  import opened Flattening
  import opened Lowering
  import opened Compilation

  class Codegen {
    var code: seq<string>
    var classes: Classes
    var compmap: map<ClassName, VTable>
    var objToClass: map<string, ClassName>
    const r: Renderer

    constructor (r: Renderer)
      ensures this.r == r
      ensures code == [] && classes == map[] && compmap == map[] && objToClass == map[]
    {
      this.r := r;
      code := [];
      classes := map[];
      compmap := map[];
      objToClass := map[];
    }

    /** The memo agrees with the class table. */
    ghost predicate Valid()
      reads this
    {
      MemoValid(classes, compmap)
    }

    function State(): Gen
      reads this
    {
      Gen(code, objToClass, compmap)
    }

    // -------------------------------------------------------------------------
    // Calls and expressions

    /** The call text `v.vtable[k](args..., v);` shared by the three call
        sites. */
    method CallCode(e: Exp) returns (res: Result<string>)
      requires e.VarMethodExp?
      ensures res == CallLine(r, State(), e)
    {
      var v := e.receiver;
      if v !in objToClass {
        return Err(UnboundReceiver(v));
      }
      var cn := objToClass[v];
      if cn !in compmap {
        return Err(UnknownClass(cn));
      }
      var vt := compmap[cn];
      if e.methodName !in vt.offsets {
        return Err(UnknownMethodOnClass(cn, e.methodName));
      }
      var offs := vt.offsets[e.methodName];
      var params := "";
      for i := 0 to |e.args|
        invariant params == ArgText(r, e.args[..i])
      {
        assert e.args[..i + 1][..i] == e.args[..i];
        params := params + Emit(r, e.args[i]);
        params := params + ", ";
      }
      assert e.args[..|e.args|] == e.args;
      return Ok(v + "." + "vtable[" + NatToString(offs) + "](" + params + v + ");");
    }

    method CompileVarMethodExp(e: Exp) returns (out: Outcome)
      requires e.VarMethodExp?
      modifies this
      ensures classes == old(classes) && compmap == old(compmap)
      ensures Reached(ExpEffect(r, old(State()), e), out, State())
    {
      var line := CallCode(e);
      if line.Err? {
        return Fail(line.error);
      }
      code := code + [line.value];
      return Pass;
    }

    method CompileExp(e: Exp) returns (out: Outcome)
      modifies this
      ensures classes == old(classes) && compmap == old(compmap)
      ensures Reached(ExpEffect(r, old(State()), e), out, State())
    {
      if e.BinopExp? || e.NumberExp? || e.ClassExp? || e.BoolExp? {
        code := code + [Emit(r, e)];
        out := Pass;
      } else if e.VarMethodExp? {
        out := CompileVarMethodExp(e);
      } else {
        out := Pass;
      }
    }

    method CompileVarAssign(s: Statement) returns (out: Outcome)
      requires s.VarAssignment?
      modifies this
      ensures classes == old(classes) && compmap == old(compmap)
      ensures Reached(AssignEffect(r, old(State()), s.variable, s.exp), out, State())
    {
      if s.exp.VarMethodExp? {
        var actualCode := "var " + s.variable + " = ";
        var line := CallCode(s.exp);
        if line.Err? {
          return Fail(line.error);
        }
        code := code + [actualCode + line.value];
      } else {
        code := code + [s.variable + " = " + Emit(r, s.exp)];
      }
      return Pass;
    }

    // -------------------------------------------------------------------------
    // Instantiation

    /** compileObj: the constructor chain of vt flattened into acc. */
    method CompileObj(vt: VTable, varstostrings: Fields, actualparams: seq<Exp>) returns (res: Result<Fields>)
      requires Entrant(classes, compmap, vt)
      ensures res == Flatten(r, classes, compmap, vt, varstostrings, actualparams)
      decreases Rank(classes, vt.theClass.name), 2
    {
      var body := vt.theClass.ctor.body;
      if body.Block? {
        var ss := body.stmts;
        var acc := varstostrings;
        for j := 0 to |ss|
          invariant FlattenStmts(r, classes, compmap, vt, acc, actualparams, ss[j..])
                 == Flatten(r, classes, compmap, vt, varstostrings, actualparams)
        {
          assert ss[j..][1..] == ss[j + 1..];
          var step := CompileCtorStatement(vt, acc, actualparams, ss[j]);
          if step.Err? {
            return Err(step.error);
          }
          acc := step.value;
        }
        return Ok(acc);
      } else {
        res := CompileCtorStatement(vt, varstostrings, actualparams, body);
      }
    }

    /** One statement of a constructor body: `super(...)` recurses into the
        parent's table, `f = e` stores f's initializer, anything else is
        skipped. */
    method CompileCtorStatement(vt: VTable, varstostrings: Fields, actualparams: seq<Exp>, s: Statement)
      returns (res: Result<Fields>)
      requires Entrant(classes, compmap, vt)
      ensures res == FlattenStmt(r, classes, compmap, vt, varstostrings, actualparams, s)
      decreases Rank(classes, vt.theClass.name), 1
    {
      if s.SuperStmt? {
        if vt.theClass.ext.None? {
          return Err(NullSuperclass(vt.theClass.name));
        }
        var p := vt.theClass.ext.value.name;
        if p !in compmap {
          return Err(UnknownClass(p));
        }
        ParentEntrant(classes, compmap, vt);
        res := CompileObj(compmap[p], varstostrings, actualparams);
      } else if s.VarAssignment? {
        var acc := varstostrings;
        var hasFound := false;
        var params := vt.theClass.ctor.params;
        var text := Emit(r, s.exp);
        var i := 0;
        while i < |params|
          invariant 0 <= i <= |params|
          invariant hasFound ==> i == |params|
          invariant !hasFound ==> (forall k :: 0 <= k < i ==> !r.sameRef(params[k].name, text)) && acc == varstostrings
          invariant hasFound ==>
            FlattenStmt(r, classes, compmap, vt, varstostrings, actualparams, s) == Ok(acc)
          decreases |params| - i, if hasFound then 0 else 1
        {
          if r.sameRef(params[i].name, text) {
            assert FirstParamFrom(r, params, text, 0) == Some(i);
            if i >= |actualparams| {
              return Err(ArgumentMissing(i));
            }
            var actualCode := Entry(s.variable, Emit(r, actualparams[i]));
            acc := acc[s.variable := actualCode];
            i := |params|;
            hasFound := true;
          } else {
            i := i + 1;
          }
        }
        if !hasFound {
          assert FirstParamFrom(r, params, text, 0) == None;
          var actualCode := Entry(s.variable, text);
          acc := acc[s.variable := actualCode];
        }
        res := Ok(acc);
      } else {
        res := Ok(varstostrings);
      }
    }

    /** The object literal: the vtable of the declared class, then the
        fragments of the flattened fields in the map's iteration order. */
    method LiteralCode(v: string, cname: ClassName, varstostrings: Fields) returns (actualCode: string)
      ensures actualCode == ObjectLiteral(r, v, cname, varstostrings)
    {
      actualCode := "var " + v + " = {\n\tvtable: " + cname + "_vtable";
      // the keys of the map in its iteration order
      var order := r.fieldOrder(varstostrings);
      ghost var head := actualCode;
      ghost var texts := FieldTexts(varstostrings, order);
      for k := 0 to |order|
        invariant actualCode == head + Concat(texts[..k])
      {
        ConcatStep(texts, k);
        var item := if order[k] in varstostrings then varstostrings[order[k]] else "";
        actualCode := actualCode + item;
      }
      assert texts[..|order|] == texts;
      actualCode := actualCode + "\n}";
    }

    method CompileVarDecAssign(s: Statement) returns (out: Outcome)
      requires s.VarDecAssignment? && Valid()
      modifies this
      ensures classes == old(classes) && compmap == old(compmap)
      ensures Reached(VarDecEffect(r, classes, old(State()), s.varDec, s.exp), out, State())
    {
      var d := s.varDec;
      if d.typ.ClassType? && s.exp.ClassExp? {
        var varstostrings: Fields := map[];
        var params := s.exp.args;
        var cname := r.typ(d.typ);
        objToClass := objToClass[d.name := cname];
        if cname !in compmap {
          return Fail(UnknownClass(cname));
        }
        var vt := compmap[cname];
        MemoEntrant(classes, compmap, cname);
        var flat := CompileObj(vt, varstostrings, params);
        if flat.Err? {
          return Fail(flat.error);
        }
        varstostrings := flat.value;
        var actualCode := LiteralCode(d.name, cname, varstostrings);
        code := code + [actualCode];
      } else if s.exp.VarMethodExp? {
        var actualCode := "var " + d.name + " = ";
        var line := CallCode(s.exp);
        if line.Err? {
          return Fail(line.error);
        }
        code := code + [actualCode + line.value];
      } else if s.exp.VariableExp? {
        code := code + ["var " + d.name + " = " + Emit(r, s.exp)];
      } else {
        code := code + ["var " + d.name + " = " + Emit(r, s.exp)];
      }
      return Pass;
    }

    // -------------------------------------------------------------------------
    // Statements

    method CompileStatement(s: Statement) returns (out: Outcome)
      requires Valid()
      modifies this
      ensures classes == old(classes) && compmap == old(compmap)
      ensures Reached(StmtEffect(r, classes, old(State()), s), out, State())
      decreases s
    {
      match s
      case IfStmt(_, _, _) =>
        code := code + [r.stmtEmit(s)];
        out := Pass;
      case WhileStmt(_, _) =>
        code := code + [r.stmtEmit(s)];
        out := Pass;
      case Block(ss) =>
        ghost var g0 := State();
        for i := 0 to |ss|
          invariant Valid() && classes == old(classes) && compmap == old(compmap)
          invariant BlockEffect(r, classes, State(), ss[i..]) == StmtEffect(r, classes, g0, s)
        {
          assert ss[i..][1..] == ss[i + 1..];
          out := CompileStatement(ss[i]);
          if out.Fail? {
            return;
          }
        }
        return Pass;
      case BreakStmt =>
        code := code + [r.stmtText(s) + ";"];
        out := Pass;
      case PrintStmt(e) =>
        code := code + ["console.log(" + Emit(r, e) + ");"];
        out := Pass;
      case ReturnExpStmt(e) =>
        code := code + ["return " + Emit(r, e) + ";"];
        out := Pass;
      case ReturnVoidStmt =>
        code := code + ["return;"];
        out := Pass;
      case VarAssignment(_, _) =>
        out := CompileVarAssign(s);
      case VarDecAssignment(_, _) =>
        out := CompileVarDecAssign(s);
      case SuperStmt(_) =>
        out := Fail(NotAnExpression);
      case ExpStmt(e) =>
        out := CompileExp(e);
    }

    /** The body of a base class's method: a block statement by statement,
        anything else as one statement. */
    method CompileBody(body: Statement) returns (out: Outcome)
      requires Valid()
      modifies this
      ensures classes == old(classes) && compmap == old(compmap)
      ensures Reached(StmtEffect(r, classes, old(State()), body), out, State())
    {
      if body.Block? {
        var b := body.stmts;
        ghost var g0 := State();
        for i := 0 to |b|
          invariant Valid() && classes == old(classes) && compmap == old(compmap)
          invariant BlockEffect(r, classes, State(), b[i..]) == StmtEffect(r, classes, g0, body)
        {
          assert b[i..][1..] == b[i + 1..];
          out := CompileStatement(b[i]);
          if out.Fail? {
            return;
          }
        }
        out := Pass;
      } else {
        out := CompileStatement(body);
      }
    }

    // -------------------------------------------------------------------------
    // Classes

    /** The parameter list of an emitted function, each parameter followed
        by a comma. */
    method ParamsCode(ps: seq<VarDec>) returns (params: string)
      ensures params == ParamsText(r, ps)
    {
      params := "";
      for i := 0 to |ps|
        invariant params == ParamsText(r, ps[..i])
      {
        assert ps[..i + 1][..i] == ps[..i];
        params := params + r.varDec(ps[i]);
        params := params + ",";
      }
      assert ps[..|ps|] == ps;
    }

    /** An override relabels every slot whose method part is m with c's
        label; j ends as the index of the last such slot. */
    method OverrideSlots(v0: seq<string>, c: ClassName, m: MethodName) returns (vTable: seq<string>, j: nat)
      ensures vTable == Rewrite(v0, c, m)
      ensures j == LastMatch(v0, m, |v0|)
    {
      vTable := v0;
      j := 0;
      for i := 0 to |vTable|
        invariant |vTable| == |v0|
        invariant forall x :: 0 <= x < i ==> vTable[x] == Relabel(v0[x], c, m)
        invariant forall x :: i <= x < |vTable| ==> vTable[x] == v0[x]
        invariant j == LastMatch(v0, m, i)
      {
        // the method part of the slot's label
        var helper := AfterUnderscore(vTable[i]);
        if helper == m {
          vTable := vTable[i := c + "_" + m];
          j := i;
        }
      }
      assert vTable == Rewrite(v0, c, m);
    }

    /** The vtable line of a derived class: its slots joined by ", ". */
    method VTableCode(c: ClassName, slots: seq<string>) returns (vtable: string)
      ensures vtable == VTableLine(c, slots)
    {
      var head := "var " + c + "_" + "vtable = [";
      vtable := head;
      for k := 0 to |slots|
        invariant vtable == head + JoinPrefix(slots, ", ", k)
      {
        JoinPrefixStep(slots, ", ", k);
        vtable := vtable + slots[k];
        if k + 1 < |slots| {
          vtable := vtable + ", ";
        }
      }
      JoinPrefixAll(slots, ", ");
      vtable := vtable + "];";
    }

    /** The first line of a base class's method. */
    method HeaderCode(c: ClassName, md: MethodDef) returns (fn: string)
      ensures fn == MethodHeader(r, c, md)
    {
      fn := "var " + c + "_" + md.name + " = function(";
      if |md.params| != 0 {
        var params := ParamsCode(md.params);
        fn := fn + params;
        fn := fn + "self) {";
      } else {
        fn := fn + "self) {";
      }
    }

    /** One method of a base class: its header line, the lines of its body,
        and the closing line. */
    method CompileParentMethod(c: ClassName, md: MethodDef) returns (out: Outcome)
      requires Valid()
      modifies this
      ensures classes == old(classes) && compmap == old(compmap)
      ensures Reached(ParentMethodEffect(r, classes, old(State()), c, md), out, State())
    {
      var fn := HeaderCode(c, md);
      code := code + [fn];
      out := CompileBody(md.body);
      if out.Fail? {
        return;
      }
      fn := "};";
      code := code + [fn];
    }

    method CompileParentclass(cls: ClassDef) returns (out: Outcome)
      requires Valid()
      modifies this
      ensures classes == old(classes)
      ensures Reached(ParentEffect(r, classes, old(State()), cls), out, State())
    {
      var count: nat := 0;
      var methodMap: map<MethodName, MethodDef> := map[];
      var offsets: map<MethodName, nat> := map[];
      var vTable: seq<string> := [];
      var vtable := "var " + cls.name + "_" + "vtable = [";
      var ms := cls.methods;
      ghost var g0 := State();
      for k := 0 to |ms|
        invariant count == k
        invariant vTable == BaseSlots(cls.name, ms[..k])
        invariant offsets == BaseOffsets(ms[..k])
        invariant methodMap == BaseImpls(ms[..k])
        invariant vtable == BaseVTableText(cls.name, ms, k)
        invariant Valid() && classes == old(classes) && compmap == old(compmap)
        invariant ParentMethodsEffect(r, classes, State(), cls.name, ms[k..])
               == ParentMethodsEffect(r, classes, g0, cls.name, ms)
      {
        var md := ms[k];
        assert ms[k..][0] == md && ms[k..][1..] == ms[k + 1..];
        out := CompileParentMethod(cls.name, md);
        if out.Fail? {
          return;
        }
        BasePrefixStep(cls.name, ms, k);
        BaseVTableTextStep(cls.name, ms, k);
        methodMap := methodMap[md.name := md];
        offsets := offsets[md.name := count];
        var slot := cls.name + "_" + md.name;
        vTable := vTable + [slot];
        vtable := vtable + slot;
        if count + 1 < |ms| {
          vtable := vtable + ", ";
        }
        count := count + 1;
      }
      assert ms[..|ms|] == ms;
      BaseVTableTextAll(cls.name, ms);
      vtable := vtable + "];";
      code := code + [vtable];
      var v := VTable(vTable, cls, methodMap, offsets);
      compmap := compmap[cls.name := v];
      out := Pass;
    }

    /** The single line of a derived class's method: header and body text. */
    method ChildMethodCode(c: ClassName, md: MethodDef) returns (fn: string)
      ensures fn == ChildMethodText(r, c, md)
    {
      fn := "var " + c + "_" + md.name + " = function(";
      if |md.params| != 0 {
        var params := ParamsCode(md.params);
        fn := fn + params;
        fn := fn + "self) {\n\t" + r.stmtText(md.body) + "};";
      } else {
        fn := fn + "self) {\n\t" + r.stmtText(md.body) + "};";
      }
    }

    /** The copy of the parent's slot list a derived class starts from. */
    method CopySlots(slots: seq<string>) returns (vTable: seq<string>)
      ensures vTable == slots
    {
      vTable := [];
      for i := 0 to |slots|
        invariant vTable == slots[..i]
      {
        vTable := vTable + [slots[i]];
      }
      assert slots[..|slots|] == slots;
    }

    /** One iteration of compileChildClass's loop on the copied tables: an
        override relabels the slots of its name, anything else appends one. */
    method ChildStep(cls: ClassDef, md: MethodDef, vTable0: seq<string>, methodMap0: map<MethodName, MethodDef>,
                     offsets0: map<MethodName, nat>, count0: nat)
      returns (vTable: seq<string>, methodMap: map<MethodName, MethodDef>, offsets: map<MethodName, nat>, count: nat)
      requires count0 == |vTable0|
      ensures VTable(vTable, cls, methodMap, offsets) == Step(VTable(vTable0, cls, methodMap0, offsets0), cls.name, md)
      ensures count == |vTable|
    {
      vTable, methodMap, offsets, count := vTable0, methodMap0, offsets0, count0;
      if md.name in methodMap && methodMap[md.name].params == md.params {
        // an override: relabel every slot of this name
        methodMap := methodMap[md.name := md];
        var j;
        vTable, j := OverrideSlots(vTable, cls.name, md.name);
        if md.name in offsets {
          offsets := offsets[md.name := j];
        }
      } else {
        // a new method, or an overload: append a slot
        methodMap := methodMap[md.name := md];
        offsets := offsets[md.name := count];
        vTable := vTable + [cls.name + "_" + md.name];
        count := count + 1;
      }
    }

    method CompileChildClass(cls: ClassDef) returns (out: Outcome)
      modifies this
      ensures classes == old(classes)
      ensures Reached(ChildEffect(r, old(State()), cls), out, State())
    {
      if cls.ext.None? {
        return Fail(NullSuperclass(cls.name));
      }
      if cls.ext.value.name !in compmap {
        return Fail(UnknownClass(cls.ext.value.name));
      }
      var parent := compmap[cls.ext.value.name];
      var vTable, methodMap, offsets := CompileChildMethods(cls, parent);
      var vtable := VTableCode(cls.name, vTable);
      code := code + [vtable];
      var v := VTable(vTable, cls, methodMap, offsets);
      compmap := compmap[cls.name := v];
      out := Pass;
    }

    /** compileChildClass's loop: each method's line is emitted while the
        copies of the parent's three structures are updated. */
    method CompileChildMethods(cls: ClassDef, parent: VTable)
      returns (vTable: seq<string>, methodMap: map<MethodName, MethodDef>, offsets: map<MethodName, nat>)
      modifies this
      ensures VTable(vTable, cls, methodMap, offsets) == ChildTable(parent, cls)
      ensures code == old(code) + ChildMethodLines(r, cls.name, cls.methods)
      ensures compmap == old(compmap) && objToClass == old(objToClass) && classes == old(classes)
    {
      ghost var target := ChildTable(parent, cls);
      methodMap := parent.methodMap;
      offsets := parent.offsets;
      vTable := CopySlots(parent.vTable);
      var count: nat := |parent.vTable|;
      var ms := cls.methods;
      for k := 0 to |ms|
        invariant count == |vTable|
        invariant StepAll(VTable(vTable, cls, methodMap, offsets), cls.name, ms[k..]) == target
        invariant code == old(code) + ChildMethodLines(r, cls.name, ms[..k])
        invariant compmap == old(compmap) && objToClass == old(objToClass) && classes == old(classes)
      {
        var md := ms[k];
        assert ms[k..][0] == md && ms[k..][1..] == ms[k + 1..];
        ChildMethodLinesStep(r, cls.name, ms, k);
        var fn := ChildMethodCode(cls.name, md);
        code := code + [fn];
        vTable, methodMap, offsets, count := ChildStep(cls, md, vTable, methodMap, offsets, count);
      }
      assert ms[..|ms|] == ms;
    }

    method CompileClass(cls: ClassDef) returns (out: Outcome)
      requires Valid() && Registered(classes, cls)
      modifies this
      ensures classes == old(classes)
      ensures Reached(ClassEffect(r, classes, old(State()), cls), out, State())
      decreases Rank(classes, cls.name)
    {
      if cls.ext.None? && cls.name !in compmap {
        out := CompileParentclass(cls);
      } else {
        if cls.ext.None? {
          return Fail(NullSuperclass(cls.name));
        }
        var p := cls.ext.value.name;
        if p !in compmap {
          if p !in classes {
            return Fail(UnknownClass(p));
          }
          RankParent(classes, cls.name);
          out := CompileClass(classes[p]);
          if out.Fail? {
            return;
          }
        }
        out := CompileChildClass(cls);
      }
    }

    // -------------------------------------------------------------------------
    // Programs

    /** compileProgram's first loop: every declaration put in the class
        table under its name. */
    method RegisterClasses(defs: seq<ClassDef>)
      modifies this
      ensures classes == Register(old(classes), defs)
      ensures compmap == old(compmap) && code == old(code) && objToClass == old(objToClass)
    {
      for i := 0 to |defs|
        invariant classes == Register(old(classes), defs[..i])
        invariant compmap == old(compmap) && code == old(code) && objToClass == old(objToClass)
      {
        assert defs[..i + 1][..i] == defs[..i];
        classes := classes[defs[i].name := defs[i]];
      }
      assert defs[..|defs|] == defs;
    }

    /** compileProgram's second loop: compileClass on every declaration, in
        order. */
    method CompileClasses(defs: seq<ClassDef>) returns (out: Outcome)
      requires Valid()
      requires forall j :: 0 <= j < |defs| ==> Registered(classes, defs[j])
      modifies this
      ensures classes == old(classes)
      ensures Reached(ClassesEffect(r, classes, old(State()), defs), out, State())
    {
      ghost var g0 := State();
      out := Pass;
      for i := 0 to |defs|
        invariant Valid() && classes == old(classes) && out == Pass
        invariant forall j :: 0 <= j < |defs[i..]| ==> Registered(classes, defs[i..][j])
        invariant ClassesEffect(r, classes, State(), defs[i..]) == ClassesEffect(r, classes, g0, defs)
      {
        assert defs[i..][0] == defs[i] && defs[i..][1..] == defs[i + 1..];
        out := CompileClass(defs[i]);
        if out.Fail? {
          return;
        }
      }
    }

    method CompileProgram(prog: Program) returns (out: Outcome)
      requires classes == map[] && compmap == map[]
      requires UniqueNames(prog.classDefs) && Acyclic(Register(map[], prog.classDefs))
      modifies this
      ensures classes == Register(map[], prog.classDefs)
      ensures Reached(ProgramEffect(r, prog, old(code), old(objToClass)), out, State())
    {
      var defs := prog.classDefs;
      RegisterClasses(defs);
      RegisterKeyed(map[], defs);
      RegisterLookup(map[], defs);
      out := CompileClasses(defs);
      if out.Fail? {
        return;
      }
      out := CompileBody(prog.statement);
    }
  }
}
