# Object-model lowering of the J2Script code generator

This project models, in Dafny, the core of `Codegen` from a compiler for a small Java-like
language with classes, single inheritance and generics. The compiler emits JavaScript-like
text. The core lowers the object model:

- every class becomes a set of emitted functions named `<Class>_<method>`, plus a dispatch
  table line `var <Class>_vtable = [...]`;
- a per-class *vtable* record (slot list, method-name to offset map, method-name to
  implementation map) is built by walking the inheritance chain. It is memoised in `compmap`;
- `new C(args)` bound by a declaration `T v = new C(args)` becomes an object literal. The
  literal holds the vtable reference and the fields the constructor chain assigns, found by
  flattening `super(...)` calls;
- a call `v.m(args)` becomes `v.vtable[k](args..., v);` where `k` is m's offset in the table
  of the class `v` is bound to.

The generator is the class `Generator.Codegen`. Its fields are the ones the source updates in
place: the emitted lines `code`, the class table `classes`, the memo `compmap` and the
variable-to-class bindings `objToClass`. Each compile method is proved against a definition
of what it does to that state:

- `Lowering.ExpEffect`, `AssignEffect`, `VarDecEffect` and `StmtEffect` describe expressions
  and statements;
- `Flattening.Flatten` describes constructors;
- `Compilation.ParentEffect`, `ChildEffect`, `ClassEffect`, `ClassesEffect` and
  `ProgramEffect` describe classes and programs.

Failures the source raises as Java exceptions become `Err(e)`/`Fail(e)` values of the
datatype `Ast.Error`:

- a null dereference of an unknown class, an unbound variable, a missing offset or a missing
  superclass;
- an out-of-range argument index;
- a failed cast to an expression.

On top of these definitions, the following are proved:

- **Reference dispatch tables.** `ClassTable.TableOf` is the table every class must get: the
  base class's own methods, then each derived class's methods stepped over its parent's
  table. The generator only ever stores that table (`Compilation.ClassEffect`, `MemoValid`),
  so a stored table never changes (`ClassEffectKeepsTables`).
- **Most-derived dispatch.** In the table of class n, a name has an offset exactly when a
  class on n's chain declares it. The slot at that offset is labelled with the nearest such
  class, and the binding is that class's last declaration of the name (`TableOfResolves`).
  The lowered call indexes exactly that slot (`Lowering.CallDispatch`).
- **Table invariant.** Offsets are slot indices, every slot an offset names carries that
  method's name, and no later slot does (`VTables.TableInv`). Every base and derived table
  keeps this invariant.
- **Constructor flattening.** Flattening applies the chain's field writes in execution order,
  and the last write to a field wins (`Flattening.FlattenIsApply`, `ApplyLastWrite`,
  `FlattenFresh`).
- **Object literals.** When the map's iteration order lists each key once
  (`Ast.FieldOrderSound`), the literal of `T v = new C(args)` carries exactly the fields the
  constructor chain of T writes, each once, with its last write (`Lowering.InstantiationLiteral`).
- **Concrete tables.** The classes of the source's three-class and four-generation inheritance
  tests get the dispatch tables those tests expect (`Vectors`).

The text of the AST nodes, produced by their own `emit()`/`toString()` methods, is not part
of this model. It enters as the opaque functions of `Ast.Renderer`. So do Java's reference
comparison of two strings and the iteration order of a `HashMap`.

Where the code and its design description disagree, the model follows the code:

- **Override.** The code relabels *every* slot whose text after the first underscore is the
  method's name, and sets the offset to the last such slot (Codegen.java:191-202). The design
  only describes replacing the slot at the existing offset. For tables that keep the
  invariant the two agree on every offset and every binding (`VTables.StepOverride`), but
  not on the slot list. An overload leaves an earlier slot of the same name that no offset
  names. A later override relabels that slot too: base `setId()`, then `setId(int i)` in a
  derived class and again in its subclass, gives `[Leaf_setId, Leaf_setId]` where the design
  gives `[Base_setId, Leaf_setId]` (`Vectors.StaleSlotRelabelled`).
- **Instantiation uses the declared type.** The declaration's type T determines the table,
  the binding and the constructor chain (Codegen.java:474-484). The class named after `new`
  plays no part (`Lowering.InstantiationUsesDeclaredType`).
- **Declaration order.** The design promises that an ancestor is compiled before its
  descendants whatever the declaration order. The code does compile it on demand, but the
  root base class's own declaration (the one with no superclass) then reads a missing
  superclass and raises. So no program that declares a class before the root base class of
  its chain compiles (`Compilation.DerivedBeforeBaseFails`). Declaring a class before an
  intermediate ancestor, one that has a superclass, does not fail: that ancestor is compiled
  a second time (see Recompilation).
- **Recompilation.** A derived class that is already compiled is compiled again when it is
  reached a second time: its lines are emitted again and the same table is stored again
  (`ClassEffect` has no memo guard on that path; Codegen.java:243-252).
- **Derived method bodies.** They are emitted as the body's own text on one line
  (`md.body.toString()`, Codegen.java:171-175), not lowered statement by statement as base
  class bodies are.
- **Parameter matching.** A constructor assignment `f = e` is matched to a parameter by
  Java `==` on strings (Codegen.java:406, 443), not by textual equality. This is
  `Renderer.sameRef`. `Ast.SameRefSound` states the one fact Java guarantees about it: identical
  strings have equal text. From that fact alone, a field keeps its initializer's text unless a
  parameter has exactly that name, and a replaced initializer comes from such a parameter's
  position (`Flattening.InitializerByName`).
- **Override test.** An override is recognised when the inherited binding's parameter list
  `equals` the new one (Codegen.java:183). `List.equals` compares element by element with
  `VarDec.equals`, whose definition is not part of this model. The model assumes that it is
  equality of type and name (`VTables.IsOverride`, which compares the `VarDec` values).

## Model

| member | source | states |
|---|---|---|
| Text.IndexOfUnderscoreSpec | src/main/java/codegen/Codegen.java:193 | `indexOf("_")` is the first underscore, and -1 exactly when the string has none |
| Text.AfterUnderscoreOfLabel | src/main/java/codegen/Codegen.java:193-194 | the text after the first underscore of the label `C_m` is m, when C has no underscore |
| VTables.LastIndex | src/main/java/codegen/Codegen.java:123-124 | the binding and offset of a base-class name come from its last declaration (later `put`s overwrite) |
| VTables.BaseTableShape | src/main/java/codegen/Codegen.java:88-136 | a base class's slots are its methods' labels in declaration order; both maps have exactly its method names as keys; with distinct names, method i sits at offset i; each name is bound to its last declaration |
| VTables.BasePrefixStep | src/main/java/codegen/Codegen.java:123-125 | one iteration of the base-class loop extends slots, offsets and bindings by the next method |
| VTables.BaseTableInv | src/main/java/codegen/Codegen.java:88-136 | a base class's table satisfies the table invariant |
| VTables.LastMatchSpec | src/main/java/codegen/Codegen.java:184-202 | the override loop's counter ends at the last slot carrying the method's name, or 0 when no slot does |
| VTables.RelabelKeepsMethod | src/main/java/codegen/Codegen.java:191-200 | relabelling a slot for an override keeps the method part of its label |
| VTables.StepOverride | src/main/java/codegen/Codegen.java:181-203 | on a table with the invariant, an override keeps the slot count and every offset, relabels the method's slot and every other slot of that name, leaves every other slot alone, and rebinds the name |
| VTables.StepInv | src/main/java/codegen/Codegen.java:162-221 | each iteration of the derived-class loop preserves the table invariant |
| VTables.StepResolves | src/main/java/codegen/Codegen.java:162-221 | after one iteration the method is bound, behind a slot with the class's label; every other name keeps offset, slot and binding |
| VTables.ChildTableInv | src/main/java/codegen/Codegen.java:137-235 | a derived class's table satisfies the invariant when its parent's does |
| VTables.ChildTableResolves | src/main/java/codegen/Codegen.java:137-221 | a derived table's names are the parent's plus the class's own; each own method sits behind a slot with the class's label and is bound to its last declaration; each inherited method the class does not redeclare keeps the parent's offset, slot and binding |
| ClassTable.RegisterLookup | src/main/java/codegen/Codegen.java:63-65 | registering declarations with distinct names stores each under its name, keeps the other entries and adds nothing else |
| ClassTable.RegisterKeyed | src/main/java/codegen/Codegen.java:63-65 | after registration every class-table entry is stored under its own name |
| ClassTable.TableOf | src/main/java/codegen/Codegen.java:233-234 | a class's reference table, when it exists, records the class's own declaration |
| ClassTable.LineageCompiled | src/main/java/codegen/Codegen.java:248-252 | a class in a valid memo has all its ancestors in the memo too |
| ClassTable.TableOfResolves | src/main/java/codegen/Codegen.java:236-254 | in class n's table a name has an offset iff a class on n's chain declares it; the slot is labelled with the nearest such class, and the binding is that class's last declaration |
| ClassTable.MemoTablesInv | src/main/java/codegen/Codegen.java:26 | every table in a valid memo satisfies the table invariant |
| Flattening.FirstParamFrom | src/main/java/codegen/Codegen.java:405-412 | finds the first constructor parameter, from a position on, that is the same string as the expression's text, or reports that there is none |
| Flattening.FlattenIsApply | src/main/java/codegen/Codegen.java:386-462 | flattening applies, in order, the field writes of the constructor chain (with `super` expanded in place) to the map it is given; failure does not depend on that map |
| Flattening.ApplyLastWrite | src/main/java/codegen/Codegen.java:405-416 | after the writes a field holds its last write's fragment, and a field never written keeps its old value or stays absent |
| Flattening.ApplyUnwritten | src/main/java/codegen/Codegen.java:405-416 | a field no write touches keeps its presence and value |
| Flattening.ApplyLastWriteAt | src/main/java/codegen/Codegen.java:405-416 | after the writes a field holds the fragment of its last write |
| Flattening.WritesAreEntries | src/main/java/codegen/Codegen.java:405-416 | every field write stores a fragment of the form `,\n\tf: ...` for its own field f |
| Flattening.InitializerByName | src/main/java/codegen/Codegen.java:405-416 | when identical strings have equal text, a field keeps its initializer's text unless a parameter has exactly that name; otherwise it takes the actual argument at such a parameter's position, or fails with ArgumentMissing there |
| Flattening.FlattenFresh | src/main/java/codegen/Codegen.java:470-484 | the object flattened from an empty map has exactly the written fields, each holding its last write's well-formed fragment |
| Lowering.CallDispatch | src/main/java/codegen/Codegen.java:570-585 | for a variable bound to a compiled class, the call is lowered iff a class on the chain declares the method; the slot indexed is the nearest declaring class's and the table binds its last declaration; otherwise it fails with UnknownMethodOnClass |
| Lowering.ArgTextIsConcat | src/main/java/codegen/Codegen.java:577-581 | the argument list the call loop builds is the concatenation, in order, of each argument's text followed by `, ` |
| Lowering.ExpEffect | src/main/java/codegen/Codegen.java:45-61 | an expression statement emits at most one line, and changes neither the bindings nor the memo |
| Lowering.AssignEffect | src/main/java/codegen/Codegen.java:334-358 | an assignment emits exactly one line, and changes neither the bindings nor the memo |
| Lowering.VarDecEffect | src/main/java/codegen/Codegen.java:463-541 | a declaration emits exactly one line and leaves the memo unchanged |
| Lowering.InstantiationUsesDeclaredType | src/main/java/codegen/Codegen.java:467-492 | `T v = new C(args)` does not depend on C; it fails with UnknownClass when T has no table, and otherwise binds v to T, emits one line and keeps the memo and every other binding |
| Lowering.FieldTextsExact | src/main/java/codegen/Codegen.java:487-489 | when the iteration order lists each field once, the literal has one fragment per field: the i-th listed field's value is the i-th fragment, and each field's value appears at exactly one position |
| Lowering.WrittenFieldTexts | src/main/java/codegen/Codegen.java:483-489 | when the iteration order lists each field once, the object's fragments are exactly those of the fields the constructor chain writes, one per field, each holding its last write |
| Lowering.InstantiationLine | src/main/java/codegen/Codegen.java:479-492 | when `T v = new C(args)` compiles, T has a table and its constructor chain's writes succeed, and the one line emitted is the literal of the object those writes build |
| Lowering.InstantiationLiteral | src/main/java/codegen/Codegen.java:474-490 | `T v = new C(args)` emits `var v = {vtable: T_vtable ...}` whose fragments are exactly those of the fields T's constructor chain writes, one per field, each holding its last write |
| Lowering.StmtEffect | src/main/java/codegen/Codegen.java:255-296 | compiling a statement never changes the memo and only appends lines |
| Lowering.BlockEffectConcat | src/main/java/codegen/Codegen.java:263-268 | compiling a block of `ss + ts` is compiling ss, then ts from the state it leaves, stopping at the first failure |
| Compilation.ParentMethodEffect | src/main/java/codegen/Codegen.java:96-122 | a base-class method keeps the memo and only appends lines |
| Compilation.ParentMethodsEffect | src/main/java/codegen/Codegen.java:95-131 | a base class's methods keep the memo and only append lines |
| Compilation.ChildMethodLinesStep | src/main/java/codegen/Codegen.java:162-179 | the derived-class loop emits one line per method, in declaration order |
| Compilation.MemoStore | src/main/java/codegen/Codegen.java:233-234 | storing a class's reference table, once its parent is stored, keeps the memo valid |
| Compilation.BaseStored | src/main/java/codegen/Codegen.java:133-135 | compiling a base class stores its reference table, keeps the memo valid and only appends lines |
| Compilation.ChildStored | src/main/java/codegen/Codegen.java:233-234 | storing a derived class's table keeps the memo valid; its lineage is itself plus its parent's |
| Compilation.DerivedStored | src/main/java/codegen/Codegen.java:248-252 | once the parent is compiled, compiling the derived class succeeds, stores its lineage and only appends lines |
| Compilation.ClassEffect | src/main/java/codegen/Codegen.java:236-254 | compileClass keeps the memo valid, adds exactly the class's lineage to it and only appends lines |
| Compilation.ClassEffectKeepsTables | src/main/java/codegen/Codegen.java:236-254 | compileClass leaves every stored table unchanged and stores the reference table of every class on the chain |
| Compilation.ClassesEffect | src/main/java/codegen/Codegen.java:66-68 | after the loop every declared class is in a valid memo, and no stored class or line is lost |
| Compilation.BaseRecompileFails | src/main/java/codegen/Codegen.java:240-248 | a base class already in the memo fails with NullSuperclass when compiled again |
| Compilation.NextClass | src/main/java/codegen/Codegen.java:66-68 | the class loop, from any position, stops when that declaration fails (as a base class already in the memo does) and otherwise goes on from the state it leaves, with its lineage in the memo |
| Compilation.BaseAlreadyCompiledFails | src/main/java/codegen/Codegen.java:66-68 | a base class declared after it was already compiled makes the rest of the class loop fail |
| Compilation.RootAfterDescendantFails | src/main/java/codegen/Codegen.java:66-68 | the rest of the class loop fails when it reaches a class before the root base class of that class's chain |
| Compilation.DerivedBeforeBaseFails | src/main/java/codegen/Codegen.java:236-254 | a list of declarations with a class before the root base class of its chain never compiles |
| Compilation.ProgramCompilesAll | src/main/java/codegen/Codegen.java:62-87 | after a program compiles, every declared class has its reference table in a valid memo and the earlier lines are kept |
| Generator.Codegen.constructor | src/main/java/codegen/Codegen.java:36-44 | a new generator has no lines, classes, tables or bindings |
| Generator.Codegen.CallCode | src/main/java/codegen/Codegen.java:573-583 | the lowered call text, or the failure of an unbound variable, an unknown class or a missing offset |
| Generator.Codegen.CompileVarMethodExp | src/main/java/codegen/Codegen.java:570-585 | does what ExpEffect describes for a call |
| Generator.Codegen.CompileExp | src/main/java/codegen/Codegen.java:45-61 | does what ExpEffect describes |
| Generator.Codegen.CompileVarAssign | src/main/java/codegen/Codegen.java:334-358 | does what AssignEffect describes |
| Generator.Codegen.CompileObj | src/main/java/codegen/Codegen.java:386-462 | returns the flattened fields Flatten defines, or its failure |
| Generator.Codegen.CompileCtorStatement | src/main/java/codegen/Codegen.java:394-418 | one constructor statement: `super` flattens the parent, `f = e` stores f's initializer, anything else is skipped |
| Generator.Codegen.LiteralCode | src/main/java/codegen/Codegen.java:480-490 | builds the object literal ObjectLiteral defines |
| Generator.Codegen.CompileVarDecAssign | src/main/java/codegen/Codegen.java:463-541 | does what VarDecEffect describes |
| Generator.Codegen.CompileStatement | src/main/java/codegen/Codegen.java:255-296 | does what StmtEffect describes |
| Generator.Codegen.CompileBody | src/main/java/codegen/Codegen.java:112-120 | a block body statement by statement, any other body as one statement, as StmtEffect describes |
| Generator.Codegen.ParamsCode | src/main/java/codegen/Codegen.java:97-103 | the parameter list, each parameter followed by a comma |
| Generator.Codegen.HeaderCode | src/main/java/codegen/Codegen.java:96-111 | the first line of a base-class method |
| Generator.Codegen.CompileParentMethod | src/main/java/codegen/Codegen.java:96-122 | does what ParentMethodEffect describes |
| Generator.Codegen.CompileParentclass | src/main/java/codegen/Codegen.java:88-136 | does what ParentEffect describes: the method lines, then the vtable line, then stores BaseTable |
| Generator.Codegen.ChildMethodCode | src/main/java/codegen/Codegen.java:163-176 | the one line of a derived-class method |
| Generator.Codegen.CopySlots | src/main/java/codegen/Codegen.java:153-155 | the copy equals the parent's slot list |
| Generator.Codegen.OverrideSlots | src/main/java/codegen/Codegen.java:184-201 | relabels exactly the slots carrying the method's name, and returns the last such index |
| Generator.Codegen.ChildStep | src/main/java/codegen/Codegen.java:180-219 | one iteration of the derived-class loop is Step, and the counter stays the slot count |
| Generator.Codegen.CompileChildMethods | src/main/java/codegen/Codegen.java:138-221 | builds ChildTable of the parent and emits one line per method, changing nothing else |
| Generator.Codegen.VTableCode | src/main/java/codegen/Codegen.java:222-230 | the vtable line: the slots joined by ", " |
| Generator.Codegen.CompileChildClass | src/main/java/codegen/Codegen.java:137-235 | does what ChildEffect describes |
| Generator.Codegen.CompileClass | src/main/java/codegen/Codegen.java:236-254 | does what ClassEffect describes |
| Generator.Codegen.RegisterClasses | src/main/java/codegen/Codegen.java:63-65 | the class table is Register of the declarations, and nothing else changes |
| Generator.Codegen.CompileClasses | src/main/java/codegen/Codegen.java:66-68 | does what ClassesEffect describes |
| Generator.Codegen.CompileProgram | src/main/java/codegen/Codegen.java:62-87 | does what ProgramEffect describes: registration, the classes in order, then the program's statement |
| Vectors.OverrideAt | src/main/java/codegen/Codegen.java:184-202 | an override whose name is in exactly one slot relabels that slot, takes that slot as offset and rebinds the name |
| Vectors.ClassOneTable | src/test/java/CodeGenTest.java:913-1012 | ClassOne's table is `[ClassOne_getId]` with getId at offset 0 |
| Vectors.BranTable | src/test/java/CodeGenTest.java:913-1012 | Bran overrides getId in place and appends setId: `[Bran_getId, Bran_setId]`, offsets 0 and 1 |
| Vectors.AryaGetName | src/test/java/CodeGenTest.java:913-1012 | Arya's new getName is appended at offset 2 |
| Vectors.AryaGetId | src/test/java/CodeGenTest.java:913-1012 | Arya's getId relabels slot 0 and keeps the offsets |
| Vectors.AryaSetId | src/test/java/CodeGenTest.java:913-1012 | Arya's setId(int i) relabels slot 1 and keeps the offsets |
| Vectors.AryaTable | src/test/java/CodeGenTest.java:1012 | Arya's table is `[Arya_getId, Arya_setId, Arya_getName]` with offsets 0, 1, 2, as the test expects |
| Vectors.ClassOneObject | src/test/java/CodeGenTest.java:527-530 | `new ClassOne()` carries exactly the field `id` with the text of 50 |
| Vectors.BranObject | src/test/java/CodeGenTest.java:540 | `new Bran()` carries exactly the field `name` with `bran`; without `super()` ClassOne's `id` is not part of it |
| Vectors.OneTable | src/test/java/CodeGenTest.java:1128-1259 | One's table is `[One_getOne]` with getOne at offset 0 |
| Vectors.TwoTable | src/test/java/CodeGenTest.java:1128-1259 | Two appends getTwo at offset 1, then overrides getOne in slot 0: `[Two_getOne, Two_getTwo]` |
| Vectors.TwoGetOne | src/test/java/CodeGenTest.java:1128-1259 | Two's getOne relabels slot 0 and keeps the offsets |
| Vectors.ThreeTable | src/test/java/CodeGenTest.java:1128-1259 | Three appends getThree at offset 2: `[Two_getOne, Two_getTwo, Three_getThree]` |
| Vectors.FourGetOne | src/test/java/CodeGenTest.java:1128-1259 | Four's getOne relabels slot 0 and keeps the offsets |
| Vectors.FourGetFour | src/test/java/CodeGenTest.java:1128-1259 | Four's new getFour is appended at offset 3 |
| Vectors.FourTable | src/test/java/CodeGenTest.java:1259 | Four's table is `[Four_getOne, Two_getTwo, Three_getThree, Four_getFour]` with offsets 0 to 3, as the test expects |
| Vectors.StaleSlotRelabelled | src/main/java/codegen/Codegen.java:184-202 | an overload leaves the base's slot in place and takes offset 1; a later override relabels both slots named setId and keeps offset 1 |

## Left out

- The printing of AST nodes (`emit()`, `toString()` of expressions, statements, variable declarations and types) is not part of this model. It is the opaque `Ast.Renderer`; `Ast.Emit` fixes only that a variable prints as its name.
- compileIfStmt, compileWhileStmt and the compileBinOpExp/BoolExp/ClassExp/NumberExp helpers (Codegen.java:542-568) each emit one node's own text. They appear only through the renderer, inside `Lowering.StmtEffect` and `Lowering.ExpEffect`.
- Generator.Codegen.LiteralCode: the fields come in `HashMap` iteration order (Codegen.java:487-489), which is unspecified. The model takes the order from the opaque `Renderer.fieldOrder`. It assumes only that the order lists each key once (`Ast.FieldOrderSound`, the premise of `Lowering.InstantiationLiteral`), and asserts no particular order.
- VTables.IsOverride: `VarDec.equals` is not part of this model; parameter lists are taken to be equal exactly when they agree element by element on type and name.
- The statement texts are two opaque functions: `Renderer.stmtEmit` for `emit()` of if and while statements (Codegen.java:544, 548), and `Renderer.stmtText` for `toString()` of a derived method's body and of `break` (Codegen.java:171, 175, 273). Nothing relates the two.
- Flattening.FirstParamFrom: Java `==` on strings (Codegen.java:406, 443) compares references. The model takes it as the opaque `Renderer.sameRef`. It proves nothing that depends on which strings are identical, beyond what follows from identical strings having equal text (`Flattening.InitializerByName`).
- The file output methods writeExptoFile, writeStatementstoFile, writeProgramtoFile and writeCompleteFile (Codegen.java:586-614) are left out: file I/O. So is the empty loop over the emitted lines at Codegen.java:83-85.
- compileobjHelper (Codegen.java:359-385) is left out: its whole body is commented out.
- The fields listofVtables, offsets and variables (Codegen.java:25-28) are never read or written by the core, so they are left out.
- Lowering.Reached: after a failure the source has raised an exception, so the state it leaves is not specified. The compile methods promise only the error on that path.
- Generator.Codegen.CompileProgram: it requires a fresh generator, distinct class names and an acyclic inheritance graph. Both conditions are assumptions about the programs that reach the code generator: the type checker is expected to reject duplicate class names, and nothing in this model shows that it rejects inheritance cycles. With a cycle the source recurses without end; with duplicate names the model does not describe what happens.
- Generator.Codegen.CompileClass, Generator.Codegen.CompileObj and Generator.Codegen.CompileVarDecAssign: they require the memo to agree with the class table (`Valid`). Every method keeps that true from an empty memo.
- Lowering.CallText: offsets are unbounded naturals. Java's 32-bit `int` cannot overflow for any table that fits in memory, so the wrap-around is not modelled.
- The lexer, parser and type checker are not part of this model.
