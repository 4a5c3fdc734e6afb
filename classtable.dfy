/** The class table (the `classes` map of the code generator) and the
    reference definition of the dispatch table every class must end up with:
    TableOf follows the inheritance chain through the class table, building
    the base class's table and then each derived class's table from its
    parent's. The generator's memo map `compmap` is correct when every entry
    agrees with TableOf. */
module ClassTable {
  import opened Ast
  import opened Text
  import opened VTables

  type Classes = map<ClassName, ClassDef>

  /** compileProgram's first loop: each declaration is put under its name,
      a later declaration replacing an earlier one of the same name. */
  function Register(m: Classes, defs: seq<ClassDef>): Classes
  {
    if defs == [] then m
    else Register(m, defs[..|defs| - 1])[defs[|defs| - 1].name := defs[|defs| - 1]]
  }

  predicate UniqueNames(defs: seq<ClassDef>)
  {
    forall i, j :: 0 <= i < j < |defs| ==> defs[i].name != defs[j].name
  }

  /** Every entry of the class table is stored under its own name. */
  predicate Keyed(classes: Classes)
  {
    forall n :: n in classes ==> classes[n].name == n
  }

  /** No class name contains an underscore, so "C_m" splits at that first
      underscore into the class and the method. */
  predicate NoUnderscore(classes: Classes)
  {
    forall n :: n in classes ==> '_' !in n
  }

  function DefNames(defs: seq<ClassDef>): set<ClassName>
  {
    set i | 0 <= i < |defs| :: defs[i].name
  }

  lemma DefNamesSnoc(defs: seq<ClassDef>)
    requires defs != []
    ensures DefNames(defs) == DefNames(defs[..|defs| - 1]) + {defs[|defs| - 1].name}
  {
    var k := |defs| - 1;
    var front := defs[..k];
    forall n | n in DefNames(defs) ensures n in DefNames(front) + {defs[k].name} {
      var i :| 0 <= i < |defs| && defs[i].name == n;
      if i < k { assert front[i] == defs[i]; }
    }
    forall n | n in DefNames(front) ensures n in DefNames(defs) {
      var i :| 0 <= i < |front| && front[i].name == n;
      assert defs[i] == front[i];
    }
  }

  lemma UniquePrefix(defs: seq<ClassDef>, k: nat)
    requires UniqueNames(defs) && k <= |defs|
    ensures UniqueNames(defs[..k])
  {
    var front := defs[..k];
    forall i, j | 0 <= i < j < |front| ensures front[i].name != front[j].name {
      assert front[i] == defs[i] && front[j] == defs[j];
    }
  }

  /** Registering declarations with distinct names stores each under its
      name, keeps the other entries, and adds nothing else. */
  lemma {:induction false} RegisterLookup(m: Classes, defs: seq<ClassDef>)
    requires UniqueNames(defs)
    ensures var c := Register(m, defs);
      && c.Keys == m.Keys + DefNames(defs)
      && (forall i :: 0 <= i < |defs| ==> c[defs[i].name] == defs[i])
      && (forall n :: n in m && n !in DefNames(defs) ==> c[n] == m[n])
    decreases |defs|
  {
    if defs == [] {
      assert DefNames(defs) == {};
    } else {
      var k := |defs| - 1;
      var front := defs[..k];
      UniquePrefix(defs, k);
      RegisterLookup(m, front);
      DefNamesSnoc(defs);
      var cf := Register(m, front);
      var c := Register(m, defs);
      assert c == cf[defs[k].name := defs[k]];
      forall i | 0 <= i < |defs| ensures c[defs[i].name] == defs[i] {
        if i < k {
          assert front[i] == defs[i];
          assert defs[i].name != defs[k].name;
        }
      }
    }
  }

  lemma RegisterKeyed(m: Classes, defs: seq<ClassDef>)
    requires Keyed(m)
    ensures Keyed(Register(m, defs))
    decreases |defs|
  {
    if defs != [] {
      RegisterKeyed(m, defs[..|defs| - 1]);
    }
  }

  function Parent(cls: ClassDef): ClassName
    requires cls.ext.Some?
  {
    cls.ext.value.name
  }

  /** Following the superclass links from n leaves the table or reaches a
      base class within k steps. */
  ghost predicate ChainEnds(classes: Classes, n: ClassName, k: nat)
    decreases k
  {
    n !in classes || classes[n].ext.None? ||
    (k > 0 && ChainEnds(classes, Parent(classes[n]), k - 1))
  }

  /** The inheritance graph has no cycle: every chain ends within as many
      steps as there are classes. */
  ghost predicate Acyclic(classes: Classes)
  {
    forall n :: n in classes ==> ChainEnds(classes, n, |classes|)
  }

  ghost function RankAt(classes: Classes, n: ClassName, k: nat): nat
    requires ChainEnds(classes, n, k)
    decreases k
  {
    if n !in classes || classes[n].ext.None? then 0
    else 1 + RankAt(classes, Parent(classes[n]), k - 1)
  }

  lemma {:induction false} RankIndep(classes: Classes, n: ClassName, k1: nat, k2: nat)
    requires ChainEnds(classes, n, k1) && ChainEnds(classes, n, k2)
    ensures RankAt(classes, n, k1) == RankAt(classes, n, k2)
    decreases k1
  {
    if n in classes && classes[n].ext.Some? {
      RankIndep(classes, Parent(classes[n]), k1 - 1, k2 - 1);
    }
  }

  /** The number of superclass links from n to its base class. */
  ghost function Rank(classes: Classes, n: ClassName): nat
    requires Acyclic(classes)
  {
    if n in classes then RankAt(classes, n, |classes|) else 0
  }

  lemma RankParent(classes: Classes, n: ClassName)
    requires Acyclic(classes)
    requires n in classes && classes[n].ext.Some?
    ensures Rank(classes, Parent(classes[n])) < Rank(classes, n)
  {
    var p := Parent(classes[n]);
    assert ChainEnds(classes, n, |classes|);
    if p in classes {
      assert ChainEnds(classes, p, |classes|);
      RankIndep(classes, p, |classes|, |classes| - 1);
    }
  }

  /** The dispatch table class n must have: None when its chain reaches a
      class missing from the table. */
  function TableOf(classes: Classes, n: ClassName): (t: Option<VTable>)
    requires Acyclic(classes)
    ensures t.Some? ==> n in classes && t.value.theClass == classes[n]
    decreases Rank(classes, n)
  {
    if n !in classes then None
    else
      var cls := classes[n];
      if cls.ext.None? then Some(BaseTable(cls))
      else
        RankParent(classes, n);
        match TableOf(classes, Parent(cls))
        case None => None
        case Some(p) =>
          StepAllClass(VTable(p.vTable, cls, p.methodMap, p.offsets), cls.name, cls.methods);
          Some(ChildTable(p, cls))
  }

  /** The names on n's chain that are in the table: n and its ancestors. */
  ghost function Lineage(classes: Classes, n: ClassName): set<ClassName>
    requires Acyclic(classes)
    decreases Rank(classes, n)
  {
    if n !in classes then {}
    else if classes[n].ext.None? then {n}
    else
      RankParent(classes, n);
      {n} + Lineage(classes, Parent(classes[n]))
  }

  /** The memo map agrees with the class table: every entry is the table
      TableOf gives, and the parent of every entry is an entry too. */
  ghost predicate MemoValid(classes: Classes, compmap: map<ClassName, VTable>)
  {
    && Keyed(classes)
    && Acyclic(classes)
    && (forall n :: n in compmap ==>
          && TableOf(classes, n) == Some(compmap[n])
          && (classes[n].ext.Some? ==> Parent(classes[n]) in compmap))
  }

  /** A class in the memo map has all its ancestors there as well. */
  lemma {:induction false} LineageCompiled(classes: Classes, compmap: map<ClassName, VTable>, n: ClassName)
    requires MemoValid(classes, compmap)
    requires n in compmap
    ensures Lineage(classes, n) <= compmap.Keys
    decreases Rank(classes, n)
  {
    assert n in classes;
    if classes[n].ext.Some? {
      RankParent(classes, n);
      LineageCompiled(classes, compmap, Parent(classes[n]));
    }
  }

  /** The nearest class on n's chain, n included, that declares a method m. */
  ghost function Owner(classes: Classes, n: ClassName, m: MethodName): Option<ClassName>
    requires Acyclic(classes)
    decreases Rank(classes, n)
  {
    if n !in classes then None
    else if m in Names(classes[n].methods) then Some(n)
    else if classes[n].ext.None? then None
    else
      RankParent(classes, n);
      Owner(classes, Parent(classes[n]), m)
  }

  /** Virtual dispatch is resolved to the most derived declaration: in the
      table of class n, a method name has an offset exactly when some class on
      n's chain declares it, and the slot at that offset is labelled with the
      nearest such class, whose last declaration of the name is its binding. */
  lemma {:induction false} TableOfResolves(classes: Classes, n: ClassName, m: MethodName)
    requires Acyclic(classes) && Keyed(classes) && NoUnderscore(classes)
    requires TableOf(classes, n).Some?
    ensures var t := TableOf(classes, n).value;
      && TableInv(t)
      && (m in t.offsets <==> Owner(classes, n, m).Some?)
      && (m in t.offsets ==>
            var o := Owner(classes, n, m).value;
            && o in classes
            && m in Names(classes[o].methods)
            && t.vTable[t.offsets[m]] == Label(o, m)
            && t.methodMap[m] == classes[o].methods[LastIndex(classes[o].methods, m)])
    decreases Rank(classes, n)
  {
    var cls := classes[n];
    var t := TableOf(classes, n).value;
    if cls.ext.None? {
      BaseTableShape(cls);
      BaseTableInv(cls);
      if m in t.offsets {
        assert t.offsets[m] == LastIndex(cls.methods, m);
      }
    } else {
      RankParent(classes, n);
      var p := TableOf(classes, Parent(cls)).value;
      TableOfResolves(classes, Parent(cls), m);
      ChildTableResolves(p, cls);
    }
  }

  /** Every table in a valid memo map satisfies the table invariant. */
  lemma MemoTablesInv(classes: Classes, compmap: map<ClassName, VTable>, n: ClassName)
    requires MemoValid(classes, compmap) && NoUnderscore(classes)
    requires n in compmap
    ensures TableInv(compmap[n])
  {
    TableOfResolves(classes, n, "");
  }
}
