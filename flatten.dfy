/** Constructor flattening (compileObj). Instantiating a class runs through
    its constructor body: `super(...)` flattens the parent's constructor with
    the same actual arguments, and an assignment `f = e` stores the fragment
    ",\n\tf: <text>" under f, where <text> is the actual argument at the
    position of the first constructor parameter whose name is the same string
    as e's text, or e's own text when there is none. Later writes to a field
    replace earlier ones; every other statement is ignored.

    Flatten is the definition the generator's compileObj is proved against;
    Writes is an independent reference that lists the writes in execution
    order; FlattenIsApply and ApplyLastWrite show that flattening applies that
    list in order, the last write to a field winning. */
module Flattening {
  import opened Ast
  import opened VTables
  import opened ClassTable

  /** varstostrings: field name to initializer fragment. */
  type Fields = map<string, string>

  /** The fragment a field initializer contributes to the object literal. */
  function Entry(f: string, v: string): string
  {
    ",\n\t" + f + ": " + v
  }

  /** The first constructor parameter at position i or later whose name is the
      same string object as text. */
  function FirstParamFrom(r: Renderer, params: seq<VarDec>, text: string, i: nat): (k: Option<nat>)
    requires i <= |params|
    ensures k.Some? ==>
      && i <= k.value < |params|
      && r.sameRef(params[k.value].name, text)
      && (forall j :: i <= j < k.value ==> !r.sameRef(params[j].name, text))
    ensures k.None? ==> forall j :: i <= j < |params| ==> !r.sameRef(params[j].name, text)
    decreases |params| - i
  {
    if i == |params| then None
    else if r.sameRef(params[i].name, text) then Some(i)
    else FirstParamFrom(r, params, text, i + 1)
  }

  /** The text stored for a field assigned e: the actual argument standing in
      for the first parameter e names, or e as written. A parameter position
      with no actual argument is an out-of-range list access. */
  function Initializer(r: Renderer, params: seq<VarDec>, actual: seq<Exp>, e: Exp): Result<string>
  {
    match FirstParamFrom(r, params, Emit(r, e), 0)
    case None => Ok(Emit(r, e))
    case Some(i) => if i < |actual| then Ok(Emit(r, actual[i])) else Err(ArgumentMissing(i))
  }

  /** When reference identity implies equal text, a field keeps the text of
      its initializer unless a parameter has exactly that name; a replaced
      initializer takes the actual argument at the position of such a
      parameter, and a missing argument is reported at that position. */
  lemma InitializerByName(r: Renderer, params: seq<VarDec>, actual: seq<Exp>, e: Exp)
    requires SameRefSound(r)
    ensures (forall j :: 0 <= j < |params| ==> params[j].name != Emit(r, e))
              ==> Initializer(r, params, actual, e) == Ok(Emit(r, e))
    ensures Initializer(r, params, actual, e) != Ok(Emit(r, e)) ==>
      exists k :: 0 <= k < |params| && params[k].name == Emit(r, e) &&
        Initializer(r, params, actual, e)
          == (if k < |actual| then Ok(Emit(r, actual[k])) else Err(ArgumentMissing(k)))
  {
    var k := FirstParamFrom(r, params, Emit(r, e), 0);
    if k.Some? {
      assert r.sameRef(params[k.value].name, Emit(r, e));
    }
  }

  /** vt is the memo entry of a class of a table the memo agrees with. */
  ghost predicate Entrant(classes: Classes, compmap: map<ClassName, VTable>, vt: VTable)
  {
    && MemoValid(classes, compmap)
    && vt.theClass.name in classes
    && classes[vt.theClass.name] == vt.theClass
  }

  /** Every entry of a valid memo is an entrant. */
  lemma MemoEntrant(classes: Classes, compmap: map<ClassName, VTable>, n: ClassName)
    requires MemoValid(classes, compmap) && n in compmap
    ensures Entrant(classes, compmap, compmap[n]) && compmap[n].theClass.name == n
  {
    assert TableOf(classes, n) == Some(compmap[n]);
  }

  /** The parent entry `super(...)` flattens is an entrant of lower rank. */
  lemma ParentEntrant(classes: Classes, compmap: map<ClassName, VTable>, vt: VTable)
    requires Entrant(classes, compmap, vt)
    requires vt.theClass.ext.Some? && Parent(vt.theClass) in compmap
    ensures Entrant(classes, compmap, compmap[Parent(vt.theClass)])
    ensures Rank(classes, compmap[Parent(vt.theClass)].theClass.name) < Rank(classes, vt.theClass.name)
  {
    MemoEntrant(classes, compmap, Parent(vt.theClass));
    RankParent(classes, vt.theClass.name);
  }

  /** compileObj(vt, acc, actual). */
  ghost function Flatten(r: Renderer, classes: Classes, compmap: map<ClassName, VTable>,
                         vt: VTable, acc: Fields, actual: seq<Exp>): Result<Fields>
    requires Entrant(classes, compmap, vt)
    decreases Rank(classes, vt.theClass.name), 2, 0
  {
    var body := vt.theClass.ctor.body;
    if body.Block? then FlattenStmts(r, classes, compmap, vt, acc, actual, body.stmts)
    else FlattenStmt(r, classes, compmap, vt, acc, actual, body)
  }

  /** The top-level statements of a block constructor body, in order. */
  ghost function FlattenStmts(r: Renderer, classes: Classes, compmap: map<ClassName, VTable>,
                              vt: VTable, acc: Fields, actual: seq<Exp>, ss: seq<Statement>): Result<Fields>
    requires Entrant(classes, compmap, vt)
    decreases Rank(classes, vt.theClass.name), 1, |ss|
  {
    if ss == [] then Ok(acc)
    else
      var acc' :- FlattenStmt(r, classes, compmap, vt, acc, actual, ss[0]);
      FlattenStmts(r, classes, compmap, vt, acc', actual, ss[1..])
  }

  /** One constructor statement. */
  ghost function FlattenStmt(r: Renderer, classes: Classes, compmap: map<ClassName, VTable>,
                             vt: VTable, acc: Fields, actual: seq<Exp>, s: Statement): Result<Fields>
    requires Entrant(classes, compmap, vt)
    decreases Rank(classes, vt.theClass.name), 0, 0
  {
    match s
    case SuperStmt(_) =>
      if vt.theClass.ext.None? then Err(NullSuperclass(vt.theClass.name))
      else if Parent(vt.theClass) !in compmap then Err(UnknownClass(Parent(vt.theClass)))
      else
        ParentEntrant(classes, compmap, vt);
        Flatten(r, classes, compmap, compmap[Parent(vt.theClass)], acc, actual)
    case VarAssignment(f, e) =>
      var v :- Initializer(r, vt.theClass.ctor.params, actual, e);
      Ok(acc[f := Entry(f, v)])
    case _ => Ok(acc)
  }

  // ---------------------------------------------------------------------------
  // Reference: the writes in execution order

  type Write = (string, string)

  /** The field writes flattening vt performs, `super(...)` expanded in place. */
  ghost function Writes(r: Renderer, classes: Classes, compmap: map<ClassName, VTable>,
                        vt: VTable, actual: seq<Exp>): Result<seq<Write>>
    requires Entrant(classes, compmap, vt)
    decreases Rank(classes, vt.theClass.name), 2, 0
  {
    var body := vt.theClass.ctor.body;
    if body.Block? then WritesStmts(r, classes, compmap, vt, actual, body.stmts)
    else WritesStmt(r, classes, compmap, vt, actual, body)
  }

  ghost function WritesStmts(r: Renderer, classes: Classes, compmap: map<ClassName, VTable>,
                             vt: VTable, actual: seq<Exp>, ss: seq<Statement>): Result<seq<Write>>
    requires Entrant(classes, compmap, vt)
    decreases Rank(classes, vt.theClass.name), 1, |ss|
  {
    if ss == [] then Ok([])
    else
      var first :- WritesStmt(r, classes, compmap, vt, actual, ss[0]);
      var rest :- WritesStmts(r, classes, compmap, vt, actual, ss[1..]);
      Ok(first + rest)
  }

  ghost function WritesStmt(r: Renderer, classes: Classes, compmap: map<ClassName, VTable>,
                            vt: VTable, actual: seq<Exp>, s: Statement): Result<seq<Write>>
    requires Entrant(classes, compmap, vt)
    decreases Rank(classes, vt.theClass.name), 0, 0
  {
    match s
    case SuperStmt(_) =>
      if vt.theClass.ext.None? then Err(NullSuperclass(vt.theClass.name))
      else if Parent(vt.theClass) !in compmap then Err(UnknownClass(Parent(vt.theClass)))
      else
        ParentEntrant(classes, compmap, vt);
        Writes(r, classes, compmap, compmap[Parent(vt.theClass)], actual)
    case VarAssignment(f, e) =>
      var v :- Initializer(r, vt.theClass.ctor.params, actual, e);
      Ok([(f, Entry(f, v))])
    case _ => Ok([])
  }

  /** The writes performed one after the other on acc. */
  function Apply(acc: Fields, ws: seq<Write>): Fields
    decreases |ws|
  {
    if ws == [] then acc else Apply(acc[ws[0].0 := ws[0].1], ws[1..])
  }

  function ApplyResult(acc: Fields, ws: Result<seq<Write>>): Result<Fields>
  {
    match ws
    case Ok(w) => Ok(Apply(acc, w))
    case Err(e) => Err(e)
  }

  lemma {:induction false} ApplyConcat(acc: Fields, a: seq<Write>, b: seq<Write>)
    ensures Apply(acc, a + b) == Apply(Apply(acc, a), b)
    decreases |a|
  {
    if a == [] {
      assert a + b == b;
    } else {
      assert (a + b)[0] == a[0];
      assert (a + b)[1..] == a[1..] + b;
      ApplyConcat(acc[a[0].0 := a[0].1], a[1..], b);
    }
  }

  /** Flattening is the application, in order, of its writes to the map it
      is given; whether it fails, and how, does not depend on that map. */
  lemma {:induction false} FlattenIsApply(r: Renderer, classes: Classes, compmap: map<ClassName, VTable>,
                                          vt: VTable, acc: Fields, actual: seq<Exp>)
    requires Entrant(classes, compmap, vt)
    ensures Flatten(r, classes, compmap, vt, acc, actual)
         == ApplyResult(acc, Writes(r, classes, compmap, vt, actual))
    decreases Rank(classes, vt.theClass.name), 2, 0
  {
    var body := vt.theClass.ctor.body;
    if body.Block? {
      FlattenStmtsIsApply(r, classes, compmap, vt, acc, actual, body.stmts);
    } else {
      FlattenStmtIsApply(r, classes, compmap, vt, acc, actual, body);
    }
  }

  lemma {:induction false} FlattenStmtsIsApply(r: Renderer, classes: Classes, compmap: map<ClassName, VTable>,
                                               vt: VTable, acc: Fields, actual: seq<Exp>, ss: seq<Statement>)
    requires Entrant(classes, compmap, vt)
    ensures FlattenStmts(r, classes, compmap, vt, acc, actual, ss)
         == ApplyResult(acc, WritesStmts(r, classes, compmap, vt, actual, ss))
    decreases Rank(classes, vt.theClass.name), 1, |ss|
  {
    if ss != [] {
      FlattenStmtIsApply(r, classes, compmap, vt, acc, actual, ss[0]);
      var first := WritesStmt(r, classes, compmap, vt, actual, ss[0]);
      if first.Ok? {
        var acc' := Apply(acc, first.value);
        FlattenStmtsIsApply(r, classes, compmap, vt, acc', actual, ss[1..]);
        var rest := WritesStmts(r, classes, compmap, vt, actual, ss[1..]);
        if rest.Ok? {
          ApplyConcat(acc, first.value, rest.value);
        }
      }
    }
  }

  lemma {:induction false} FlattenStmtIsApply(r: Renderer, classes: Classes, compmap: map<ClassName, VTable>,
                                              vt: VTable, acc: Fields, actual: seq<Exp>, s: Statement)
    requires Entrant(classes, compmap, vt)
    ensures FlattenStmt(r, classes, compmap, vt, acc, actual, s)
         == ApplyResult(acc, WritesStmt(r, classes, compmap, vt, actual, s))
    decreases Rank(classes, vt.theClass.name), 0, 0
  {
    if s.SuperStmt? && vt.theClass.ext.Some? && Parent(vt.theClass) in compmap {
      ParentEntrant(classes, compmap, vt);
      FlattenIsApply(r, classes, compmap, compmap[Parent(vt.theClass)], acc, actual);
    } else if s.VarAssignment? {
      AssignIsApply(r, classes, compmap, vt, acc, actual, s);
    }
  }

  /** A field assignment in a constructor is the application of its one write. */
  lemma AssignIsApply(r: Renderer, classes: Classes, compmap: map<ClassName, VTable>,
                      vt: VTable, acc: Fields, actual: seq<Exp>, s: Statement)
    requires Entrant(classes, compmap, vt) && s.VarAssignment?
    ensures FlattenStmt(r, classes, compmap, vt, acc, actual, s)
         == ApplyResult(acc, WritesStmt(r, classes, compmap, vt, actual, s))
  {
    var v := Initializer(r, vt.theClass.ctor.params, actual, s.exp);
    if v.Ok? {
      ApplySingle(acc, s.variable, Entry(s.variable, v.value));
    }
  }

  lemma ApplySingle(acc: Fields, f: string, v: string)
    ensures Apply(acc, [(f, v)]) == acc[f := v]
  {
    assert [(f, v)][1..] == [];
  }

  /** The last position at which ws writes f. */
  predicate LastWriteAt(ws: seq<Write>, f: string, i: nat)
  {
    i < |ws| && ws[i].0 == f && forall j :: i < j < |ws| ==> ws[j].0 != f
  }

  /** Last write wins: after the writes, a field holds what its last write
      stored, and a field never written keeps its value from acc (or stays
      absent). */
  lemma {:induction false} ApplyLastWrite(acc: Fields, ws: seq<Write>, f: string)
    ensures (forall j :: 0 <= j < |ws| ==> ws[j].0 != f) ==>
              (f in Apply(acc, ws) <==> f in acc) &&
              (f in acc ==> Apply(acc, ws)[f] == acc[f])
    ensures forall i: nat :: LastWriteAt(ws, f, i) ==> f in Apply(acc, ws) && Apply(acc, ws)[f] == ws[i].1
  {
    if forall j :: 0 <= j < |ws| ==> ws[j].0 != f {
      ApplyUnwritten(acc, ws, f);
    }
    forall i: nat | LastWriteAt(ws, f, i) ensures f in Apply(acc, ws) && Apply(acc, ws)[f] == ws[i].1 {
      ApplyLastWriteAt(acc, ws, f, i);
    }
  }

  /** A field no write touches keeps its presence and value. */
  lemma {:induction false} ApplyUnwritten(acc: Fields, ws: seq<Write>, f: string)
    requires forall j :: 0 <= j < |ws| ==> ws[j].0 != f
    ensures f in Apply(acc, ws) <==> f in acc
    ensures f in acc ==> Apply(acc, ws)[f] == acc[f]
    decreases |ws|
  {
    if ws != [] {
      assert ws[0].0 != f;
      forall j | 0 <= j < |ws[1..]| ensures ws[1..][j].0 != f {
        assert ws[1..][j] == ws[j + 1];
      }
      ApplyUnwritten(acc[ws[0].0 := ws[0].1], ws[1..], f);
    }
  }

  /** A field holds the fragment of its last write. */
  lemma {:induction false} ApplyLastWriteAt(acc: Fields, ws: seq<Write>, f: string, i: nat)
    requires LastWriteAt(ws, f, i)
    ensures f in Apply(acc, ws) && Apply(acc, ws)[f] == ws[i].1
    decreases |ws|
  {
    var acc' := acc[ws[0].0 := ws[0].1];
    if i > 0 {
      assert LastWriteAt(ws[1..], f, i - 1);
      ApplyLastWriteAt(acc', ws[1..], f, i - 1);
    } else {
      forall j | 0 <= j < |ws[1..]| ensures ws[1..][j].0 != f {
        assert ws[1..][j] == ws[j + 1];
      }
      ApplyUnwritten(acc', ws[1..], f);
    }
  }

  /** The fragment stored under f has the form ",\n\tf: ...". */
  predicate IsEntryOf(f: string, s: string)
  {
    var head := Entry(f, "");
    |head| <= |s| && s[..|head|] == head
  }

  predicate EntriesWellFormed(m: Fields)
  {
    forall f :: f in m ==> IsEntryOf(f, m[f])
  }

  predicate WritesWellFormed(ws: seq<Write>)
  {
    forall i :: 0 <= i < |ws| ==> IsEntryOf(ws[i].0, ws[i].1)
  }

  lemma {:induction false} ApplyWellFormed(acc: Fields, ws: seq<Write>)
    requires EntriesWellFormed(acc) && WritesWellFormed(ws)
    ensures EntriesWellFormed(Apply(acc, ws))
    decreases |ws|
  {
    if ws != [] {
      assert IsEntryOf(ws[0].0, ws[0].1);
      assert WritesWellFormed(ws[1..]) by {
        forall i | 0 <= i < |ws[1..]| ensures IsEntryOf(ws[1..][i].0, ws[1..][i].1) {
          assert ws[1..][i] == ws[i + 1];
        }
      }
      ApplyWellFormed(acc[ws[0].0 := ws[0].1], ws[1..]);
    }
  }

  lemma EntryIsEntryOf(f: string, v: string)
    ensures IsEntryOf(f, Entry(f, v))
  {
    assert Entry(f, v) == Entry(f, "") + v;
  }

  /** Every write stores a fragment of the form ",\n\tf: ..." for its own
      field f. */
  lemma {:induction false} WritesAreEntries(r: Renderer, classes: Classes, compmap: map<ClassName, VTable>,
                                            vt: VTable, actual: seq<Exp>)
    requires Entrant(classes, compmap, vt)
    ensures var w := Writes(r, classes, compmap, vt, actual); w.Ok? ==> WritesWellFormed(w.value)
    decreases Rank(classes, vt.theClass.name), 2, 0
  {
    var body := vt.theClass.ctor.body;
    if body.Block? {
      WritesStmtsAreEntries(r, classes, compmap, vt, actual, body.stmts);
    } else {
      WritesStmtAreEntries(r, classes, compmap, vt, actual, body);
    }
  }

  lemma {:induction false} WritesStmtsAreEntries(r: Renderer, classes: Classes, compmap: map<ClassName, VTable>,
                                                 vt: VTable, actual: seq<Exp>, ss: seq<Statement>)
    requires Entrant(classes, compmap, vt)
    ensures var w := WritesStmts(r, classes, compmap, vt, actual, ss); w.Ok? ==> WritesWellFormed(w.value)
    decreases Rank(classes, vt.theClass.name), 1, |ss|
  {
    if ss != [] {
      WritesStmtAreEntries(r, classes, compmap, vt, actual, ss[0]);
      WritesStmtsAreEntries(r, classes, compmap, vt, actual, ss[1..]);
      var first := WritesStmt(r, classes, compmap, vt, actual, ss[0]);
      var rest := WritesStmts(r, classes, compmap, vt, actual, ss[1..]);
      if first.Ok? && rest.Ok? {
        WellFormedConcat(first.value, rest.value);
      }
    }
  }

  lemma WellFormedConcat(a: seq<Write>, b: seq<Write>)
    requires WritesWellFormed(a) && WritesWellFormed(b)
    ensures WritesWellFormed(a + b)
  {
    var w := a + b;
    forall i | 0 <= i < |w| ensures IsEntryOf(w[i].0, w[i].1) {
      if i < |a| {
        assert w[i] == a[i];
      } else {
        assert w[i] == b[i - |a|];
      }
    }
  }

  lemma {:induction false} WritesStmtAreEntries(r: Renderer, classes: Classes, compmap: map<ClassName, VTable>,
                                                vt: VTable, actual: seq<Exp>, s: Statement)
    requires Entrant(classes, compmap, vt)
    ensures var w := WritesStmt(r, classes, compmap, vt, actual, s); w.Ok? ==> WritesWellFormed(w.value)
    decreases Rank(classes, vt.theClass.name), 0, 0
  {
    if s.SuperStmt? && vt.theClass.ext.Some? && Parent(vt.theClass) in compmap {
      ParentEntrant(classes, compmap, vt);
      WritesAreEntries(r, classes, compmap, compmap[Parent(vt.theClass)], actual);
    } else if s.VarAssignment? {
      var v := Initializer(r, vt.theClass.ctor.params, actual, s.exp);
      if v.Ok? {
        EntryIsEntryOf(s.variable, v.value);
      }
    }
  }

  /** The object compileObj returns for a fresh map: each field holds the
      fragment of its last write along the constructor chain, in the form
      ",\n\tf: ...", and no other field is present. */
  lemma FlattenFresh(r: Renderer, classes: Classes, compmap: map<ClassName, VTable>,
                     vt: VTable, actual: seq<Exp>, f: string)
    requires Entrant(classes, compmap, vt)
    requires Writes(r, classes, compmap, vt, actual).Ok?
    ensures var ws := Writes(r, classes, compmap, vt, actual).value;
      && Flatten(r, classes, compmap, vt, map[], actual) == Ok(Apply(map[], ws))
      && EntriesWellFormed(Apply(map[], ws))
      && (f in Apply(map[], ws) <==> exists j :: 0 <= j < |ws| && ws[j].0 == f)
      && (forall i: nat :: LastWriteAt(ws, f, i) ==> Apply(map[], ws)[f] == ws[i].1)
  {
    var ws := Writes(r, classes, compmap, vt, actual).value;
    FlattenIsApply(r, classes, compmap, vt, map[], actual);
    WritesAreEntries(r, classes, compmap, vt, actual);
    ApplyWellFormed(map[], ws);
    ApplyLastWrite(map[], ws, f);
    if exists j :: 0 <= j < |ws| && ws[j].0 == f {
      var j :| 0 <= j < |ws| && ws[j].0 == f;
      var i := LastWriteOf(ws, f, j);
      assert LastWriteAt(ws, f, i);
    }
  }

  /** Some write to f is the last one. */
  lemma LastWriteOf(ws: seq<Write>, f: string, j: nat) returns (i: nat)
    requires j < |ws| && ws[j].0 == f
    ensures LastWriteAt(ws, f, i)
    decreases |ws| - j
  {
    if forall k :: j < k < |ws| ==> ws[k].0 != f {
      i := j;
    } else {
      var k :| j < k < |ws| && ws[k].0 == f;
      i := LastWriteOf(ws, f, k);
    }
  }
}
