/** Per-class virtual dispatch tables (VTableClassTable in the source).

    A table holds the ordered slot list `vTable` of "<Class>_<method>" labels,
    the implementation map `methodMap` (method name to MethodDef) and the
    offset map `offsets` (method name to slot index). BaseTable is the table
    compileParentclass builds; Step is one iteration of compileChildClass's
    loop over the derived class's methods (override in place or append), and
    ChildTable is the whole loop started from copies of the parent's table. */
module VTables {
  import opened Ast
  import opened Text

  datatype VTable = VTable(
    vTable: seq<string>,
    theClass: ClassDef,
    methodMap: map<MethodName, MethodDef>,
    offsets: map<MethodName, nat>)

  /** The name of the emitted function of method m of class c. */
  function Label(c: ClassName, m: MethodName): string
  {
    c + "_" + m
  }

  /** The emitted line that defines the dispatch table of class c. */
  function VTableLine(c: ClassName, slots: seq<string>): string
  {
    VTableHead(c) + Join(slots, ", ") + "];"
  }

  function VTableHead(c: ClassName): string
  {
    "var " + c + "_" + "vtable = ["
  }

  /** The table preserves the meaning of its offsets: the two maps have the
      same keys, every offset is a slot index, the slot an offset points to is
      labelled with that method's name after the first underscore, and no
      later slot carries that name. */
  predicate TableInv(t: VTable)
  {
    && t.offsets.Keys == t.methodMap.Keys
    && (forall n :: n in t.offsets ==>
          t.offsets[n] < |t.vTable| && AfterUnderscore(t.vTable[t.offsets[n]]) == n)
    && (forall n, i :: n in t.offsets && t.offsets[n] < i < |t.vTable| ==>
          AfterUnderscore(t.vTable[i]) != n)
  }

  // ---------------------------------------------------------------------------
  // Base classes

  function Names(ms: seq<MethodDef>): set<MethodName>
  {
    set i | 0 <= i < |ms| :: ms[i].name
  }

  /** The position of the last declaration named n. */
  function LastIndex(ms: seq<MethodDef>, n: MethodName): (i: nat)
    requires n in Names(ms)
    ensures i < |ms| && ms[i].name == n
    ensures forall j :: i < j < |ms| ==> ms[j].name != n
  {
    var last := |ms| - 1;
    if ms[last].name == n then last
    else
      assert n in Names(ms[..last]) by {
        var k :| 0 <= k < |ms| && ms[k].name == n;
        assert ms[..last][k].name == n;
      }
      LastIndex(ms[..last], n)
  }

  lemma LastIndexUnique(ms: seq<MethodDef>, n: MethodName, i: nat)
    requires i < |ms| && ms[i].name == n
    requires forall j :: i < j < |ms| ==> ms[j].name != n
    ensures n in Names(ms) && LastIndex(ms, n) == i
  {
    assert n in Names(ms);
  }

  function BaseSlots(c: ClassName, ms: seq<MethodDef>): seq<string>
  {
    seq(|ms|, i requires 0 <= i < |ms| => Label(c, ms[i].name))
  }

  function BaseOffsets(ms: seq<MethodDef>): map<MethodName, nat>
  {
    map n | n in Names(ms) :: LastIndex(ms, n)
  }

  function BaseImpls(ms: seq<MethodDef>): map<MethodName, MethodDef>
  {
    map n | n in Names(ms) :: ms[LastIndex(ms, n)]
  }

  /** The table of a class without a superclass. */
  function BaseTable(cls: ClassDef): VTable
  {
    VTable(BaseSlots(cls.name, cls.methods), cls, BaseImpls(cls.methods), BaseOffsets(cls.methods))
  }

  /** A base class's slots are its own methods in declaration order; the two
      maps have the same keys, namely its method names; when the names are
      distinct the i-th method sits at offset i; each name is bound to its
      last declaration. */
  lemma BaseTableShape(cls: ClassDef)
    ensures var t := BaseTable(cls);
      && |t.vTable| == |cls.methods|
      && (forall i :: 0 <= i < |cls.methods| ==> t.vTable[i] == Label(cls.name, cls.methods[i].name))
      && t.offsets.Keys == t.methodMap.Keys == Names(cls.methods)
      && (forall n :: n in t.offsets ==> t.methodMap[n] == cls.methods[t.offsets[n]])
      && ((forall i, j :: 0 <= i < j < |cls.methods| ==> cls.methods[i].name != cls.methods[j].name) ==>
            forall i :: 0 <= i < |cls.methods| ==> t.offsets[cls.methods[i].name] == i)
  {
    var ms := cls.methods;
    if forall i, j :: 0 <= i < j < |ms| ==> ms[i].name != ms[j].name {
      forall i | 0 <= i < |ms|
        ensures BaseTable(cls).offsets[ms[i].name] == i
      {
        LastIndexUnique(ms, ms[i].name, i);
      }
    }
  }

  lemma NamesSnoc(ms: seq<MethodDef>, i: nat)
    requires i < |ms|
    ensures Names(ms[..i + 1]) == Names(ms[..i]) + {ms[i].name}
  {
    var p, q := ms[..i], ms[..i + 1];
    forall n | n in Names(q) ensures n in Names(p) + {ms[i].name} {
      var k :| 0 <= k < |q| && q[k].name == n;
      if k < i { assert p[k].name == n; }
    }
    forall n | n in Names(p) ensures n in Names(q) {
      var k :| 0 <= k < |p| && p[k].name == n;
      assert q[k].name == n;
    }
  }

  lemma LastIndexSnoc(ms: seq<MethodDef>, i: nat, n: MethodName)
    requires i < |ms|
    requires n in Names(ms[..i + 1])
    ensures n != ms[i].name ==> n in Names(ms[..i])
    ensures LastIndex(ms[..i + 1], n) == if n == ms[i].name then i else LastIndex(ms[..i], n)
  {
    var p, q := ms[..i], ms[..i + 1];
    NamesSnoc(ms, i);
    if n == ms[i].name {
      LastIndexUnique(q, n, i);
    } else {
      var k := LastIndex(p, n);
      assert q[k].name == n;
      LastIndexUnique(q, n, k);
    }
  }

  /** The vtable line of a base class while its loop has appended the first
      k slots. */
  function BaseVTableText(c: ClassName, ms: seq<MethodDef>, k: nat): string
    requires k <= |ms|
  {
    VTableHead(c) + JoinPrefix(BaseSlots(c, ms), ", ", k)
  }

  lemma BaseVTableTextStep(c: ClassName, ms: seq<MethodDef>, k: nat)
    requires k < |ms|
    ensures BaseVTableText(c, ms, k + 1)
         == BaseVTableText(c, ms, k) + Label(c, ms[k].name) + (if k + 1 < |ms| then ", " else "")
  {
    JoinPrefixStep(BaseSlots(c, ms), ", ", k);
  }

  lemma BaseVTableTextAll(c: ClassName, ms: seq<MethodDef>)
    ensures BaseVTableText(c, ms, |ms|) + "];" == VTableLine(c, BaseSlots(c, ms))
  {
    JoinPrefixAll(BaseSlots(c, ms), ", ");
  }

  /** One iteration of compileParentclass's loop extends the tables built so
      far by the next method. */
  lemma BasePrefixStep(c: ClassName, ms: seq<MethodDef>, i: nat)
    requires i < |ms|
    ensures BaseSlots(c, ms[..i + 1]) == BaseSlots(c, ms[..i]) + [Label(c, ms[i].name)]
    ensures BaseOffsets(ms[..i + 1]) == BaseOffsets(ms[..i])[ms[i].name := i]
    ensures BaseImpls(ms[..i + 1]) == BaseImpls(ms[..i])[ms[i].name := ms[i]]
  {
    BaseSlotsSnoc(c, ms, i);
    BaseMapsSnoc(ms, i);
  }

  lemma BaseSlotsSnoc(c: ClassName, ms: seq<MethodDef>, i: nat)
    requires i < |ms|
    ensures BaseSlots(c, ms[..i + 1]) == BaseSlots(c, ms[..i]) + [Label(c, ms[i].name)]
  {
    var a, b := BaseSlots(c, ms[..i + 1]), BaseSlots(c, ms[..i]) + [Label(c, ms[i].name)];
    assert |a| == |b|;
    forall x | 0 <= x < |a| ensures a[x] == b[x] {
      assert ms[..i + 1][x] == ms[x];
      if x < i { assert ms[..i][x] == ms[x]; }
    }
  }

  lemma BaseMapsSnoc(ms: seq<MethodDef>, i: nat)
    requires i < |ms|
    ensures BaseOffsets(ms[..i + 1]) == BaseOffsets(ms[..i])[ms[i].name := i]
    ensures BaseImpls(ms[..i + 1]) == BaseImpls(ms[..i])[ms[i].name := ms[i]]
  {
    NamesSnoc(ms, i);
    BaseOffsetsSnoc(ms, i);
    BaseImplsSnoc(ms, i);
  }

  lemma BaseOffsetsSnoc(ms: seq<MethodDef>, i: nat)
    requires i < |ms|
    requires Names(ms[..i + 1]) == Names(ms[..i]) + {ms[i].name}
    ensures BaseOffsets(ms[..i + 1]) == BaseOffsets(ms[..i])[ms[i].name := i]
  {
    var o1, o2 := BaseOffsets(ms[..i + 1]), BaseOffsets(ms[..i])[ms[i].name := i];
    assert o1.Keys == o2.Keys;
    forall n | n in o1 ensures o1[n] == o2[n] {
      LastIndexSnoc(ms, i, n);
    }
  }

  lemma BaseImplsSnoc(ms: seq<MethodDef>, i: nat)
    requires i < |ms|
    requires Names(ms[..i + 1]) == Names(ms[..i]) + {ms[i].name}
    ensures BaseImpls(ms[..i + 1]) == BaseImpls(ms[..i])[ms[i].name := ms[i]]
  {
    var p, q := ms[..i], ms[..i + 1];
    var m1, m2 := BaseImpls(q), BaseImpls(p)[ms[i].name := ms[i]];
    assert m1.Keys == m2.Keys;
    forall n | n in m1 ensures m1[n] == m2[n] {
      LastIndexSnoc(ms, i, n);
      if n != ms[i].name {
        assert q[LastIndex(p, n)] == p[LastIndex(p, n)];
      }
    }
  }

  /** A base class whose name has no underscore always yields a table that
      satisfies the invariant. */
  lemma BaseTableInv(cls: ClassDef)
    requires '_' !in cls.name
    ensures TableInv(BaseTable(cls))
  {
    var t := BaseTable(cls);
    var ms := cls.methods;
    forall n | n in t.offsets
      ensures t.offsets[n] < |t.vTable| && AfterUnderscore(t.vTable[t.offsets[n]]) == n
    {
      AfterUnderscoreOfLabel(cls.name, n);
    }
    forall n, i | n in t.offsets && t.offsets[n] < i < |t.vTable|
      ensures AfterUnderscore(t.vTable[i]) != n
    {
      AfterUnderscoreOfLabel(cls.name, ms[i].name);
    }
  }

  // ---------------------------------------------------------------------------
  // Derived classes

  /** The slot list after overriding m in class c: every slot whose label,
      after the first underscore, is m is relabelled c_m. */
  function Rewrite(v: seq<string>, c: ClassName, m: MethodName): seq<string>
  {
    seq(|v|, i requires 0 <= i < |v| => Relabel(v[i], c, m))
  }

  /** One slot of an override: relabelled c_m when its method part is m. */
  function Relabel(slot: string, c: ClassName, m: MethodName): string
  {
    if AfterUnderscore(slot) == m then Label(c, m) else slot
  }

  /** The counter j of the override loop after its first n iterations: the
      last index below n whose slot is labelled m, or 0 when there is none. */
  function LastMatch(v: seq<string>, m: MethodName, n: nat): nat
    requires n <= |v|
  {
    if n == 0 then 0
    else if AfterUnderscore(v[n - 1]) == m then n - 1
    else LastMatch(v, m, n - 1)
  }

  /** LastMatch finds the last slot labelled m below n, and is 0 when there
      is none. */
  lemma {:induction false} LastMatchSpec(v: seq<string>, m: MethodName, n: nat)
    requires n <= |v|
    ensures var j := LastMatch(v, m, n);
      && ((exists i :: 0 <= i < n && AfterUnderscore(v[i]) == m) ==>
            j < n && AfterUnderscore(v[j]) == m &&
            forall i :: j < i < n ==> AfterUnderscore(v[i]) != m)
      && ((forall i :: 0 <= i < n ==> AfterUnderscore(v[i]) != m) ==> j == 0)
    decreases n
  {
    if n > 0 && AfterUnderscore(v[n - 1]) != m {
      LastMatchSpec(v, m, n - 1);
    }
  }

  /** The method overrides an inherited one: the name is bound and the two
      parameter lists are equal. */
  predicate IsOverride(t: VTable, md: MethodDef)
  {
    md.name in t.methodMap && t.methodMap[md.name].params == md.params
  }

  /** One iteration of compileChildClass's loop over the methods of class c. */
  function Step(t: VTable, c: ClassName, md: MethodDef): VTable
  {
    if IsOverride(t, md) then
      var j := LastMatch(t.vTable, md.name, |t.vTable|);
      VTable(Rewrite(t.vTable, c, md.name), t.theClass, t.methodMap[md.name := md],
             if md.name in t.offsets then t.offsets[md.name := j] else t.offsets)
    else
      VTable(t.vTable + [Label(c, md.name)], t.theClass, t.methodMap[md.name := md],
             t.offsets[md.name := |t.vTable|])
  }

  function StepAll(t: VTable, c: ClassName, ms: seq<MethodDef>): VTable
    decreases |ms|
  {
    if ms == [] then t else StepAll(Step(t, c, ms[0]), c, ms[1..])
  }

  /** The table of a derived class: its methods processed in declaration
      order, starting from copies of the parent table's three structures. */
  function ChildTable(parent: VTable, cls: ClassDef): VTable
  {
    StepAll(VTable(parent.vTable, cls, parent.methodMap, parent.offsets), cls.name, cls.methods)
  }

  /** Appending: exactly one new slot c_m at the end, m's offset is the old
      length, m is bound to the new method, and nothing else changes. */
  lemma StepAppend(t: VTable, c: ClassName, md: MethodDef)
    requires !IsOverride(t, md)
    ensures var u := Step(t, c, md);
      && u.vTable == t.vTable + [Label(c, md.name)]
      && u.offsets == t.offsets[md.name := |t.vTable|]
      && u.methodMap == t.methodMap[md.name := md]
      && u.theClass == t.theClass
  {
  }

  /** Relabelling keeps the method part of every slot. */
  lemma RelabelKeepsMethod(slot: string, c: ClassName, m: MethodName)
    requires '_' !in c
    ensures AfterUnderscore(Relabel(slot, c, m)) == AfterUnderscore(slot)
  {
    if AfterUnderscore(slot) == m {
      AfterUnderscoreOfLabel(c, m);
    }
  }

  /** Overriding, in a table that satisfies the invariant: the slot count and
      every offset are unchanged; the slot at m's offset, and every other slot
      labelled m, becomes c_m; every other slot is unchanged; m is bound to the
      new method. */
  lemma StepOverride(t: VTable, c: ClassName, md: MethodDef)
    requires TableInv(t)
    requires IsOverride(t, md)
    ensures var u := Step(t, c, md);
      && |u.vTable| == |t.vTable|
      && u.offsets == t.offsets
      && u.vTable[t.offsets[md.name]] == Label(c, md.name)
      && (forall i :: 0 <= i < |t.vTable| ==> u.vTable[i] == Relabel(t.vTable[i], c, md.name))
      && u.methodMap == t.methodMap[md.name := md]
  {
    var m := md.name;
    var k := t.offsets[m];
    var j := LastMatch(t.vTable, m, |t.vTable|);
    assert AfterUnderscore(t.vTable[k]) == m;
    LastMatchSpec(t.vTable, m, |t.vTable|);
    assert j == k;
    assert t.offsets[m := j] == t.offsets;
  }

  lemma StepInvOverride(t: VTable, c: ClassName, md: MethodDef)
    requires TableInv(t)
    requires '_' !in c
    requires IsOverride(t, md)
    ensures TableInv(Step(t, c, md))
  {
    var u := Step(t, c, md);
    StepOverride(t, c, md);
    assert u.methodMap.Keys == t.methodMap.Keys;
    forall i | 0 <= i < |u.vTable|
      ensures AfterUnderscore(u.vTable[i]) == AfterUnderscore(t.vTable[i])
    {
      RelabelKeepsMethod(t.vTable[i], c, md.name);
    }
  }

  lemma StepInvAppend(t: VTable, c: ClassName, md: MethodDef)
    requires TableInv(t)
    requires '_' !in c
    requires !IsOverride(t, md)
    ensures TableInv(Step(t, c, md))
  {
    var u := Step(t, c, md);
    var len := |t.vTable|;
    AfterUnderscoreOfLabel(c, md.name);
    StepAppend(t, c, md);
    forall n | n in u.offsets
      ensures u.offsets[n] < |u.vTable| && AfterUnderscore(u.vTable[u.offsets[n]]) == n
    {
      if n != md.name {
        assert u.vTable[t.offsets[n]] == t.vTable[t.offsets[n]];
      }
    }
    forall n, i | n in u.offsets && u.offsets[n] < i < |u.vTable|
      ensures AfterUnderscore(u.vTable[i]) != n
    {
      assert n != md.name && i <= len;
      if i < len {
        assert u.vTable[i] == t.vTable[i];
      }
    }
  }

  /** Both kinds of step keep the invariant, provided the class name has no
      underscore. */
  lemma StepInv(t: VTable, c: ClassName, md: MethodDef)
    requires TableInv(t)
    requires '_' !in c
    ensures TableInv(Step(t, c, md))
  {
    if IsOverride(t, md) {
      StepInvOverride(t, c, md);
    } else {
      StepInvAppend(t, c, md);
    }
  }

  lemma {:induction false} StepAllInv(t: VTable, c: ClassName, ms: seq<MethodDef>)
    requires TableInv(t)
    requires '_' !in c
    ensures TableInv(StepAll(t, c, ms))
    decreases |ms|
  {
    if ms != [] {
      StepInv(t, c, ms[0]);
      StepAllInv(Step(t, c, ms[0]), c, ms[1..]);
    }
  }

  /** A derived class's table satisfies the invariant when its parent's does. */
  lemma ChildTableInv(parent: VTable, cls: ClassDef)
    requires TableInv(parent)
    requires '_' !in cls.name
    ensures TableInv(ChildTable(parent, cls))
  {
    StepAllInv(VTable(parent.vTable, cls, parent.methodMap, parent.offsets), cls.name, cls.methods);
  }

  /** What one step promises about every name: m is bound to the new
      method behind a slot labelled c_m, every other name keeps its offset,
      slot and binding. */
  ghost predicate StepResolved(t: VTable, u: VTable, c: ClassName, md: MethodDef)
  {
    && TableInv(t)
    && TableInv(u)
    && u.offsets.Keys == t.offsets.Keys + {md.name}
    && |u.vTable| >= |t.vTable|
    && u.vTable[u.offsets[md.name]] == Label(c, md.name)
    && u.methodMap[md.name] == md
    && (forall n :: n in t.offsets && n != md.name ==>
          && u.offsets[n] == t.offsets[n]
          && u.vTable[u.offsets[n]] == t.vTable[t.offsets[n]]
          && u.methodMap[n] == t.methodMap[n])
  }

  lemma StepResolvesOverride(t: VTable, c: ClassName, md: MethodDef)
    requires TableInv(t)
    requires '_' !in c
    requires IsOverride(t, md)
    ensures StepResolved(t, Step(t, c, md), c, md)
  {
    StepInvOverride(t, c, md);
    StepOverride(t, c, md);
  }

  lemma StepResolvesAppend(t: VTable, c: ClassName, md: MethodDef)
    requires TableInv(t)
    requires '_' !in c
    requires !IsOverride(t, md)
    ensures StepResolved(t, Step(t, c, md), c, md)
  {
    var u := Step(t, c, md);
    StepInvAppend(t, c, md);
    StepAppend(t, c, md);
    var m := md.name;
    var len := |t.vTable|;
    assert u.offsets[m] == len;
    assert u.vTable[len] == Label(c, m);
    assert u.offsets.Keys == t.offsets.Keys + {m};
    forall n | n in t.offsets && n != m
      ensures u.offsets[n] == t.offsets[n]
      ensures u.vTable[u.offsets[n]] == t.vTable[t.offsets[n]]
      ensures u.methodMap[n] == t.methodMap[n]
    {
      var k := t.offsets[n];
      assert k < len;
      assert u.vTable[k] == t.vTable[k];
    }
  }

  lemma StepResolves(t: VTable, c: ClassName, md: MethodDef)
    requires TableInv(t)
    requires '_' !in c
    ensures StepResolved(t, Step(t, c, md), c, md)
  {
    if IsOverride(t, md) {
      StepResolvesOverride(t, c, md);
    } else {
      StepResolvesAppend(t, c, md);
    }
  }

  lemma NamesCons(ms: seq<MethodDef>)
    requires ms != []
    ensures Names(ms) == {ms[0].name} + Names(ms[1..])
  {
    var rest := ms[1..];
    forall n | n in Names(ms) ensures n in {ms[0].name} + Names(rest) {
      var k :| 0 <= k < |ms| && ms[k].name == n;
      if k > 0 { assert rest[k - 1].name == n; }
    }
    forall n | n in Names(rest) ensures n in Names(ms) {
      var k :| 0 <= k < |rest| && rest[k].name == n;
      assert ms[k + 1].name == n;
    }
  }

  lemma LastIndexCons(ms: seq<MethodDef>, n: MethodName)
    requires ms != []
    requires n in Names(ms)
    ensures n in Names(ms[1..]) ==> LastIndex(ms, n) == LastIndex(ms[1..], n) + 1
    ensures n !in Names(ms[1..]) ==> n == ms[0].name && LastIndex(ms, n) == 0
  {
    var rest := ms[1..];
    NamesCons(ms);
    if n in Names(rest) {
      var k := LastIndex(rest, n);
      assert ms[k + 1] == rest[k];
      LastIndexUnique(ms, n, k + 1);
    } else {
      forall j | 0 < j < |ms| ensures ms[j].name != n {
        assert rest[j - 1] == ms[j];
        assert rest[j - 1].name in Names(rest);
      }
      LastIndexUnique(ms, n, 0);
    }
  }

  /** Every name the steps over ms leave undeclared keeps its offset, slot and
      binding from t. */
  ghost predicate Inherited(t: VTable, u: VTable, ms: seq<MethodDef>)
  {
    && TableInv(t)
    && TableInv(u)
    && t.offsets.Keys <= u.offsets.Keys
    && |u.vTable| >= |t.vTable|
    && (forall n :: n in t.offsets && n !in Names(ms) ==>
          && u.offsets[n] == t.offsets[n]
          && u.vTable[u.offsets[n]] == t.vTable[t.offsets[n]]
          && u.methodMap[n] == t.methodMap[n])
  }

  /** Every name declared in ms is bound to its last declaration there, behind
      a slot labelled c_name. */
  ghost predicate Declared(u: VTable, c: ClassName, ms: seq<MethodDef>)
  {
    && TableInv(u)
    && Names(ms) <= u.offsets.Keys
    && (forall n :: n in Names(ms) ==>
          u.vTable[u.offsets[n]] == Label(c, n) && u.methodMap[n] == ms[LastIndex(ms, n)])
  }

  lemma {:induction false} StepAllKeys(t: VTable, c: ClassName, ms: seq<MethodDef>)
    requires TableInv(t)
    requires '_' !in c
    ensures StepAll(t, c, ms).offsets.Keys == t.offsets.Keys + Names(ms)
    decreases |ms|
  {
    if ms == [] {
      assert Names(ms) == {};
    } else {
      StepResolves(t, c, ms[0]);
      StepAllKeys(Step(t, c, ms[0]), c, ms[1..]);
      NamesCons(ms);
    }
  }

  lemma {:induction false} StepAllInherited(t: VTable, c: ClassName, ms: seq<MethodDef>)
    requires TableInv(t)
    requires '_' !in c
    ensures Inherited(t, StepAll(t, c, ms), ms)
    decreases |ms|
  {
    if ms == [] {
      assert Names(ms) == {};
    } else {
      var m := ms[0].name;
      var t1 := Step(t, c, ms[0]);
      var rest := ms[1..];
      var u := StepAll(t1, c, rest);
      StepResolves(t, c, ms[0]);
      StepAllInherited(t1, c, rest);
      NamesCons(ms);
      forall n | n in t.offsets && n !in Names(ms)
        ensures u.offsets[n] == t.offsets[n]
        ensures u.vTable[u.offsets[n]] == t.vTable[t.offsets[n]]
        ensures u.methodMap[n] == t.methodMap[n]
      {
        assert n != m && n !in Names(rest);
        assert t1.offsets[n] == t.offsets[n];
        assert t1.vTable[t1.offsets[n]] == t.vTable[t.offsets[n]];
        assert u.offsets[n] == t1.offsets[n];
        assert u.vTable[u.offsets[n]] == t1.vTable[t1.offsets[n]];
      }
    }
  }

  lemma {:induction false} StepAllDeclared(t: VTable, c: ClassName, ms: seq<MethodDef>)
    requires TableInv(t)
    requires '_' !in c
    ensures Declared(StepAll(t, c, ms), c, ms)
    decreases |ms|
  {
    if ms == [] {
      assert Names(ms) == {};
      assert StepAll(t, c, ms) == t;
    } else {
      var t1 := Step(t, c, ms[0]);
      var rest := ms[1..];
      var u := StepAll(t1, c, rest);
      StepResolves(t, c, ms[0]);
      StepAllDeclared(t1, c, rest);
      StepAllInherited(t1, c, rest);
      NamesCons(ms);
      forall n | n in Names(ms)
        ensures u.vTable[u.offsets[n]] == Label(c, n) && u.methodMap[n] == ms[LastIndex(ms, n)]
      {
        LastIndexCons(ms, n);
        if n in Names(rest) {
          assert ms[LastIndex(ms, n)] == rest[LastIndex(rest, n)];
        } else {
          assert n == ms[0].name && LastIndex(ms, n) == 0;
          assert n in t1.offsets && n !in Names(rest);
          assert u.vTable[u.offsets[n]] == t1.vTable[t1.offsets[n]] == Label(c, n);
          assert u.methodMap[n] == t1.methodMap[n] == ms[0];
        }
      }
    }
  }

  /** A derived class's table starts from its parent's: every method the class
      declares is reached through a slot labelled with the class's own name and
      bound to its last declaration there, and every inherited method the class
      does not redeclare keeps the parent's offset, slot and binding. */
  lemma ChildTableResolves(parent: VTable, cls: ClassDef)
    requires TableInv(parent)
    requires '_' !in cls.name
    ensures var u := ChildTable(parent, cls);
      && u.theClass == cls
      && TableInv(u)
      && u.offsets.Keys == parent.offsets.Keys + Names(cls.methods)
      && |u.vTable| >= |parent.vTable|
      && (forall n :: n in Names(cls.methods) ==>
            u.vTable[u.offsets[n]] == Label(cls.name, n) &&
            u.methodMap[n] == cls.methods[LastIndex(cls.methods, n)])
      && (forall n :: n in parent.offsets && n !in Names(cls.methods) ==>
            && u.offsets[n] == parent.offsets[n]
            && u.vTable[u.offsets[n]] == parent.vTable[parent.offsets[n]]
            && u.methodMap[n] == parent.methodMap[n])
  {
    var t := VTable(parent.vTable, cls, parent.methodMap, parent.offsets);
    StepAllKeys(t, cls.name, cls.methods);
    StepAllInherited(t, cls.name, cls.methods);
    StepAllDeclared(t, cls.name, cls.methods);
    StepAllClass(t, cls.name, cls.methods);
  }

  lemma {:induction false} StepAllClass(t: VTable, c: ClassName, ms: seq<MethodDef>)
    ensures StepAll(t, c, ms).theClass == t.theClass
    decreases |ms|
  {
    if ms != [] {
      StepAllClass(Step(t, c, ms[0]), c, ms[1..]);
    }
  }
}
