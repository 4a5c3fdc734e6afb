/** Concrete dispatch tables and objects for class hierarchies taken from the
    code generator's own test programs: what the vtable lines and object
    literals of those programs must contain follows from the model. */
module Vectors {
  import opened Ast
  import opened Text
  import opened VTables
  import opened ClassTable
  import opened Flattening

  function Meth(ret: Type, name: MethodName, params: seq<VarDec>, body: Statement): MethodDef
  {
    MethodDef(ret, name, params, body)
  }

  function NoCtor(): Constructor
  {
    Constructor([], ReturnVoidStmt)
  }

  const intI := VarDec(IntType, "i")

  /** An override that finds its name in exactly one slot k relabels that
      slot and sets the name's offset to k. */
  lemma OverrideAt(t: VTable, c: ClassName, md: MethodDef, k: nat)
    requires IsOverride(t, md) && md.name in t.offsets
    requires k < |t.vTable| && AfterUnderscore(t.vTable[k]) == md.name
    requires forall i :: 0 <= i < |t.vTable| && i != k ==> AfterUnderscore(t.vTable[i]) != md.name
    ensures Step(t, c, md)
         == VTable(t.vTable[k := Label(c, md.name)], t.theClass, t.methodMap[md.name := md], t.offsets[md.name := k])
  {
    LastMatchSpec(t.vTable, md.name, |t.vTable|);
    assert Rewrite(t.vTable, c, md.name) == t.vTable[k := Label(c, md.name)];
  }

  /** class ClassOne { constructor() { id = 50; } int getId() { return id; } } */
  function ClassOne(): ClassDef
  {
    ClassDef("ClassOne", Constructor([], VarAssignment("id", NumberExp(50))), None, [VarDec(IntType, "id"), VarDec(IntType, "gpa")],
             [Meth(IntType, "getId", [], ReturnExpStmt(VariableExp("id")))], [])
  }

  /** class Bran extends ClassOne { constructor() { name = bran; }
      int getId() { return 5; } void setId(int i) { id = i; } } */
  function Bran(): ClassDef
  {
    ClassDef("Bran", Constructor([], VarAssignment("name", VariableExp("bran"))), Some(Extends("ClassOne", [])), [VarDec(IntType, "name")],
             [Meth(IntType, "getId", [], ReturnExpStmt(NumberExp(5))),
              Meth(VoidType, "setId", [intI], VarAssignment("id", VariableExp("i")))], [])
  }

  /** class Arya extends Bran { int getName() {..} int getId() {..} void setId(int i) {..} } */
  function Arya(): ClassDef
  {
    ClassDef("Arya", NoCtor(), Some(Extends("Bran", [])), [VarDec(IntType, "name")],
             [Meth(IntType, "getName", [], ReturnExpStmt(VariableExp("name"))),
              Meth(IntType, "getId", [], ReturnExpStmt(NumberExp(5))),
              Meth(VoidType, "setId", [intI], VarAssignment("id", VariableExp("i")))], [])
  }

  /** A base class's table lists its own methods. */
  lemma ClassOneTable()
    ensures BaseTable(ClassOne()).vTable == [Label("ClassOne", "getId")]
    ensures BaseTable(ClassOne()).offsets == map["getId" := 0]
    ensures BaseTable(ClassOne()).methodMap == map["getId" := ClassOne().methods[0]]
  {
    var ms := ClassOne().methods;
    assert Names(ms) == {"getId"} by {
      assert ms[0].name == "getId";
    }
    LastIndexUnique(ms, "getId", 0);
    var t := BaseTable(ClassOne());
    assert |t.vTable| == 1 && t.vTable[0] == Label("ClassOne", "getId");
  }

  /** Bran overrides getId in place (slot 0) and appends setId. */
  lemma BranTable()
    ensures var t := ChildTable(BaseTable(ClassOne()), Bran());
      && t.vTable == [Label("Bran", "getId"), Label("Bran", "setId")]
      && t.offsets == map["getId" := 0, "setId" := 1]
      && t.methodMap == map["getId" := Bran().methods[0], "setId" := Bran().methods[1]]
  {
    ClassOneTable();
    var p := BaseTable(ClassOne());
    var ms := Bran().methods;
    var t0 := VTable(p.vTable, Bran(), p.methodMap, p.offsets);
    assert IsOverride(t0, ms[0]);
    AfterUnderscoreOfLabel("ClassOne", "getId");
    var t1 := Step(t0, "Bran", ms[0]);
    assert LastMatch(t0.vTable, "getId", 1) == 0;
    assert t1.vTable == [Label("Bran", "getId")] by {
      assert |t1.vTable| == 1 && t1.vTable[0] == Relabel(t0.vTable[0], "Bran", "getId");
    }
    assert "setId" !in t1.methodMap;
    var t2 := Step(t1, "Bran", ms[1]);
    assert ms[1..][1..] == [];
    assert StepAll(t0, "Bran", ms) == t2;
  }

  /** Arya appends getName, then overrides getId and setId of Bran where they
      stand: the table of the grandchild is [Arya_getId, Arya_setId,
      Arya_getName], as the test of the three-class hierarchy expects. */
  lemma AryaTable()
    ensures var t := ChildTable(ChildTable(BaseTable(ClassOne()), Bran()), Arya());
      && t.vTable == [Label("Arya", "getId"), Label("Arya", "setId"), Label("Arya", "getName")]
      && t.offsets == map["getId" := 0, "setId" := 1, "getName" := 2]
  {
    BranTable();
    var p := ChildTable(BaseTable(ClassOne()), Bran());
    var ms := Arya().methods;
    var t0 := VTable(p.vTable, Arya(), p.methodMap, p.offsets);
    var t1 := Step(t0, "Arya", ms[0]);
    AryaGetName(t0);
    var t2 := Step(t1, "Arya", ms[1]);
    AryaGetId(t1);
    var t3 := Step(t2, "Arya", ms[2]);
    AryaSetId(t2);
    assert ms[1..][1..][1..] == [];
    assert StepAll(t0, "Arya", ms) == t3;
  }

  /** getName is new: one slot appended at offset 2. */
  lemma AryaGetName(t0: VTable)
    requires t0.vTable == [Label("Bran", "getId"), Label("Bran", "setId")]
    requires t0.offsets == map["getId" := 0, "setId" := 1]
    requires t0.methodMap == map["getId" := Bran().methods[0], "setId" := Bran().methods[1]]
    ensures var t1 := Step(t0, "Arya", Arya().methods[0]);
      && t1.vTable == [Label("Bran", "getId"), Label("Bran", "setId"), Label("Arya", "getName")]
      && t1.offsets == map["getId" := 0, "setId" := 1, "getName" := 2]
      && t1.methodMap == map["getId" := Bran().methods[0], "setId" := Bran().methods[1], "getName" := Arya().methods[0]]
  {
    assert "getName" != "getId" && "getName" != "setId";
  }

  /** getId overrides Bran's: slot 0 is relabelled, the offsets stay. */
  lemma AryaGetId(t1: VTable)
    requires t1.vTable == [Label("Bran", "getId"), Label("Bran", "setId"), Label("Arya", "getName")]
    requires t1.offsets == map["getId" := 0, "setId" := 1, "getName" := 2]
    requires t1.methodMap == map["getId" := Bran().methods[0], "setId" := Bran().methods[1], "getName" := Arya().methods[0]]
    ensures var t2 := Step(t1, "Arya", Arya().methods[1]);
      && t2.vTable == [Label("Arya", "getId"), Label("Bran", "setId"), Label("Arya", "getName")]
      && t2.offsets == t1.offsets
      && t2.methodMap == t1.methodMap["getId" := Arya().methods[1]]
  {
    assert "setId" != "getId" by { assert "setId"[0] != "getId"[0]; }
    AfterUnderscoreOfLabel("Bran", "getId");
    AfterUnderscoreOfLabel("Bran", "setId");
    AfterUnderscoreOfLabel("Arya", "getName");
    OverrideAt(t1, "Arya", Arya().methods[1], 0);
  }


  /** setId(int i) overrides Bran's setId(int i): slot 1 is relabelled. */
  lemma AryaSetId(t2: VTable)
    requires t2.vTable == [Label("Arya", "getId"), Label("Bran", "setId"), Label("Arya", "getName")]
    requires t2.offsets == map["getId" := 0, "setId" := 1, "getName" := 2]
    requires "setId" in t2.methodMap && t2.methodMap["setId"] == Bran().methods[1]
    ensures var t3 := Step(t2, "Arya", Arya().methods[2]);
      && t3.vTable == [Label("Arya", "getId"), Label("Arya", "setId"), Label("Arya", "getName")]
      && t3.offsets == t2.offsets
  {
    assert "setId" != "getId" by { assert "setId"[0] != "getId"[0]; }
    AfterUnderscoreOfLabel("Arya", "getId");
    AfterUnderscoreOfLabel("Bran", "setId");
    AfterUnderscoreOfLabel("Arya", "getName");
    OverrideAt(t2, "Arya", Arya().methods[2], 1);
  }


  /** `new ClassOne()` carries the one field its constructor assigns. */
  lemma ClassOneObject(r: Renderer, classes: Classes, compmap: map<ClassName, VTable>, vt: VTable)
    requires Entrant(classes, compmap, vt) && vt.theClass == ClassOne()
    ensures Flatten(r, classes, compmap, vt, map[], []) == Ok(map["id" := Entry("id", r.exp(NumberExp(50)))])
  {
  }

  /** Bran's constructor does not call super(), so `new Bran()` carries
      Bran's own field only: ClassOne's `id = 50` is not part of it. */
  lemma BranObject(r: Renderer, classes: Classes, compmap: map<ClassName, VTable>, vt: VTable)
    requires Entrant(classes, compmap, vt) && vt.theClass == Bran()
    ensures Flatten(r, classes, compmap, vt, map[], []) == Ok(map["name" := Entry("name", "bran")])
    ensures "id" !in Flatten(r, classes, compmap, vt, map[], []).value
  {
  }

  // ---------------------------------------------------------------------------
  // Four generations: One <- Two <- Three <- Four

  /** constructor(int i) { f = i; } */
  function SetFromI(f: string): Constructor
  {
    Constructor([intI], VarAssignment(f, VariableExp("i")))
  }

  /** class One { int one; int getOne() { return one; } } */
  function One(): ClassDef
  {
    ClassDef("One", SetFromI("one"), None, [VarDec(IntType, "one")],
             [Meth(IntType, "getOne", [], ReturnExpStmt(VariableExp("one")))], [])
  }

  /** class Two extends One { int getTwo() { return two; } int getOne() { return 1; } } */
  function Two(): ClassDef
  {
    ClassDef("Two", SetFromI("two"), Some(Extends("One", [])), [VarDec(IntType, "two")],
             [Meth(IntType, "getTwo", [], ReturnExpStmt(VariableExp("two"))),
              Meth(IntType, "getOne", [], ReturnExpStmt(NumberExp(1)))], [])
  }

  /** class Three extends Two { int getThree() { return three; } } */
  function Three(): ClassDef
  {
    ClassDef("Three", SetFromI("three"), Some(Extends("Two", [])), [VarDec(IntType, "three")],
             [Meth(IntType, "getThree", [], ReturnExpStmt(VariableExp("three")))], [])
  }

  /** class Four extends Three { int getOne() { return 1; } int getFour() { return four; } } */
  function Four(): ClassDef
  {
    ClassDef("Four", SetFromI("four"), Some(Extends("Three", [])), [VarDec(IntType, "four")],
             [Meth(IntType, "getOne", [], ReturnExpStmt(NumberExp(1))),
              Meth(IntType, "getFour", [], ReturnExpStmt(VariableExp("four")))], [])
  }

  lemma OneTable()
    ensures BaseTable(One()).vTable == [Label("One", "getOne")]
    ensures BaseTable(One()).offsets == map["getOne" := 0]
    ensures BaseTable(One()).methodMap == map["getOne" := One().methods[0]]
  {
    var ms := One().methods;
    assert Names(ms) == {"getOne"} by {
      assert ms[0].name == "getOne";
    }
    LastIndexUnique(ms, "getOne", 0);
    var t := BaseTable(One());
    assert |t.vTable| == 1 && t.vTable[0] == Label("One", "getOne");
  }

  /** Two appends getTwo at offset 1, then its getOne overrides One's in
      slot 0: [Two_getOne, Two_getTwo]. */
  lemma TwoTable()
    ensures var t := ChildTable(BaseTable(One()), Two());
      && t.vTable == [Label("Two", "getOne"), Label("Two", "getTwo")]
      && t.offsets == map["getOne" := 0, "getTwo" := 1]
      && t.methodMap == map["getOne" := Two().methods[1], "getTwo" := Two().methods[0]]
  {
    OneTable();
    var p := BaseTable(One());
    var ms := Two().methods;
    var t0 := VTable(p.vTable, Two(), p.methodMap, p.offsets);
    assert "getTwo" != "getOne" by { assert "getTwo"[3] != "getOne"[3]; }
    var t1 := Step(t0, "Two", ms[0]);
    assert t1.vTable == [Label("One", "getOne"), Label("Two", "getTwo")];
    TwoGetOne(t1);
    var t2 := Step(t1, "Two", ms[1]);
    assert ms[1..][1..] == [];
    assert StepAll(t0, "Two", ms) == t2;
  }

  /** Two's getOne overrides One's: slot 0 is relabelled, the offsets stay. */
  lemma TwoGetOne(t1: VTable)
    requires t1.vTable == [Label("One", "getOne"), Label("Two", "getTwo")]
    requires t1.offsets == map["getOne" := 0, "getTwo" := 1]
    requires t1.methodMap == map["getOne" := One().methods[0], "getTwo" := Two().methods[0]]
    ensures var t2 := Step(t1, "Two", Two().methods[1]);
      && t2.vTable == [Label("Two", "getOne"), Label("Two", "getTwo")]
      && t2.offsets == t1.offsets
      && t2.methodMap == t1.methodMap["getOne" := Two().methods[1]]
  {
    assert "getTwo" != "getOne" by { assert "getTwo"[3] != "getOne"[3]; }
    AfterUnderscoreOfLabel("One", "getOne");
    AfterUnderscoreOfLabel("Two", "getTwo");
    OverrideAt(t1, "Two", Two().methods[1], 0);
  }

  /** Three appends getThree at offset 2 and inherits the rest of Two's
      table unchanged. */
  lemma ThreeTable()
    ensures var t := ChildTable(ChildTable(BaseTable(One()), Two()), Three());
      && t.vTable == [Label("Two", "getOne"), Label("Two", "getTwo"), Label("Three", "getThree")]
      && t.offsets == map["getOne" := 0, "getTwo" := 1, "getThree" := 2]
      && t.methodMap == map["getOne" := Two().methods[1], "getTwo" := Two().methods[0],
                            "getThree" := Three().methods[0]]
  {
    TwoTable();
    var p := ChildTable(BaseTable(One()), Two());
    var ms := Three().methods;
    var t0 := VTable(p.vTable, Three(), p.methodMap, p.offsets);
    assert "getThree" != "getOne" && "getThree" != "getTwo";
    var t1 := Step(t0, "Three", ms[0]);
    assert ms[1..] == [];
    assert StepAll(t0, "Three", ms) == t1;
  }

  /** Four overrides getOne in slot 0 and appends getFour at offset 3:
      [Four_getOne, Two_getTwo, Three_getThree, Four_getFour], as the test of
      the four-generation hierarchy expects. */
  lemma FourTable()
    ensures var t := ChildTable(ChildTable(ChildTable(BaseTable(One()), Two()), Three()), Four());
      && t.vTable == [Label("Four", "getOne"), Label("Two", "getTwo"), Label("Three", "getThree"), Label("Four", "getFour")]
      && t.offsets == map["getOne" := 0, "getTwo" := 1, "getThree" := 2, "getFour" := 3]
  {
    ThreeTable();
    var p := ChildTable(ChildTable(BaseTable(One()), Two()), Three());
    var ms := Four().methods;
    var t0 := VTable(p.vTable, Four(), p.methodMap, p.offsets);
    var t1 := Step(t0, "Four", ms[0]);
    FourGetOne(t0);
    var t2 := Step(t1, "Four", ms[1]);
    FourGetFour(t1);
    assert ms[1..][1..] == [];
    assert StepAll(t0, "Four", ms) == t2;
  }

  /** getFour is new: one slot appended at offset 3. */
  lemma FourGetFour(t1: VTable)
    requires t1.vTable == [Label("Four", "getOne"), Label("Two", "getTwo"), Label("Three", "getThree")]
    requires t1.offsets == map["getOne" := 0, "getTwo" := 1, "getThree" := 2]
    requires t1.methodMap.Keys == {"getOne", "getTwo", "getThree"}
    ensures var t2 := Step(t1, "Four", Four().methods[1]);
      && t2.vTable == [Label("Four", "getOne"), Label("Two", "getTwo"), Label("Three", "getThree"), Label("Four", "getFour")]
      && t2.offsets == map["getOne" := 0, "getTwo" := 1, "getThree" := 2, "getFour" := 3]
  {
    assert "getFour" != "getOne" && "getFour" != "getTwo" && "getFour" != "getThree";
  }


  /** getOne overrides Two's: slot 0 is relabelled, the offsets stay. */
  lemma FourGetOne(t0: VTable)
    requires t0.vTable == [Label("Two", "getOne"), Label("Two", "getTwo"), Label("Three", "getThree")]
    requires t0.offsets == map["getOne" := 0, "getTwo" := 1, "getThree" := 2]
    requires t0.methodMap == map["getOne" := Two().methods[1], "getTwo" := Two().methods[0],
                                 "getThree" := Three().methods[0]]
    ensures var t1 := Step(t0, "Four", Four().methods[0]);
      && t1.vTable == [Label("Four", "getOne"), Label("Two", "getTwo"), Label("Three", "getThree")]
      && t1.offsets == t0.offsets
      && t1.methodMap == t0.methodMap["getOne" := Four().methods[0]]
  {
    assert "getTwo" != "getOne" by { assert "getTwo"[3] != "getOne"[3]; }
    assert "getThree" != "getOne";
    AfterUnderscoreOfLabel("Two", "getOne");
    AfterUnderscoreOfLabel("Two", "getTwo");
    AfterUnderscoreOfLabel("Three", "getThree");
    OverrideAt(t0, "Four", Four().methods[0], 0);
  }

  // ---------------------------------------------------------------------------
  // An override that relabels a stale slot

  /** class Base { void setId() { } } */
  function Base(): ClassDef
  {
    ClassDef("Base", NoCtor(), None, [], [Meth(VoidType, "setId", [], ReturnVoidStmt)], [])
  }

  /** class Mid extends Base { void setId(int i) { } }: an overload. */
  function Mid(): ClassDef
  {
    ClassDef("Mid", NoCtor(), Some(Extends("Base", [])), [], [Meth(VoidType, "setId", [intI], ReturnVoidStmt)], [])
  }

  /** class Leaf extends Mid { void setId(int i) { } }: an override of Mid's. */
  function Leaf(): ClassDef
  {
    ClassDef("Leaf", NoCtor(), Some(Extends("Mid", [])), [], [Meth(VoidType, "setId", [intI], ReturnVoidStmt)], [])
  }

  /** Mid's overload of setId gets a second slot with offset 1. Leaf's
      override of it then relabels both slots named setId, including Base's
      slot 0 that no offset names, and keeps the offset 1: the slot list is
      [Leaf_setId, Leaf_setId], not [Base_setId, Leaf_setId]. */
  lemma StaleSlotRelabelled()
    ensures var m := ChildTable(BaseTable(Base()), Mid());
      && m.vTable == [Label("Base", "setId"), Label("Mid", "setId")]
      && m.offsets == map["setId" := 1]
    ensures var t := ChildTable(ChildTable(BaseTable(Base()), Mid()), Leaf());
      && t.vTable == [Label("Leaf", "setId"), Label("Leaf", "setId")]
      && t.offsets == map["setId" := 1]
  {
    var bs := Base().methods;
    assert Names(bs) == {"setId"} by {
      assert bs[0].name == "setId";
    }
    LastIndexUnique(bs, "setId", 0);
    var b := BaseTable(Base());
    assert b.vTable == [Label("Base", "setId")] by {
      assert |b.vTable| == 1 && b.vTable[0] == Label("Base", "setId");
    }
    assert b.methodMap == map["setId" := bs[0]];
    var m0 := VTable(b.vTable, Mid(), b.methodMap, b.offsets);
    assert !IsOverride(m0, Mid().methods[0]);
    var m := Step(m0, "Mid", Mid().methods[0]);
    assert Mid().methods[1..] == [];
    assert ChildTable(b, Mid()) == m;
    var l0 := VTable(m.vTable, Leaf(), m.methodMap, m.offsets);
    var md := Leaf().methods[0];
    assert IsOverride(l0, md);
    AfterUnderscoreOfLabel("Base", "setId");
    AfterUnderscoreOfLabel("Mid", "setId");
    assert LastMatch(l0.vTable, "setId", 2) == 1;
    var l := Step(l0, "Leaf", md);
    assert l.vTable == [Label("Leaf", "setId"), Label("Leaf", "setId")] by {
      assert |l.vTable| == 2;
      assert l.vTable[0] == Label("Leaf", "setId");
      assert l.vTable[1] == Label("Leaf", "setId");
    }
    assert Leaf().methods[1..] == [];
    assert ChildTable(m, Leaf()) == l;
  }
}
