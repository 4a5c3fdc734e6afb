/** The abstract syntax the code generator consumes, the opaque renderings of
    the parts of it whose text is produced elsewhere, and the failure values
    of the pass. Names (ClassName, MethodName, Variable) are represented by the
    string they print as. */
module Ast {

  type ClassName = string
  type MethodName = string

  /** Types of the source language. Type parameters are erased by the code
      generator; ClassType keeps its type arguments only as data. */
  datatype Type =
    | IntType
    | BooleanType
    | StringType
    | VoidType
    | ClassType(name: ClassName, typeArgs: seq<Type>)
    | TypeVariable(name: string)

  /** A declared variable or formal parameter. Two parameter lists are equal
      when they are equal element by element on both type and name. */
  datatype VarDec = VarDec(typ: Type, name: string)

  datatype Op = Plus | Minus | Times | Div | LessThan | EqualEqual

  datatype Exp =
    | VariableExp(name: string)
    | NumberExp(number: int)
    | BoolExp(truth: bool)
    | StrExp(text: string)
    | BinopExp(left: Exp, op: Op, right: Exp)
    | ClassExp(cls: ClassName, typeArgs: seq<Type>, args: seq<Exp>)
    | VarMethodExp(receiver: string, methodName: MethodName, args: seq<Exp>)

  datatype Statement =
    | IfStmt(cond: Exp, thenBranch: Statement, elseBranch: Statement)
    | WhileStmt(cond: Exp, body: Statement)
    | Block(stmts: seq<Statement>)
    | BreakStmt
    | PrintStmt(exp: Exp)
    | ReturnExpStmt(exp: Exp)
    | ReturnVoidStmt
    | VarAssignment(variable: string, exp: Exp)
    | VarDecAssignment(varDec: VarDec, exp: Exp)
    | SuperStmt(args: seq<Exp>)
    | ExpStmt(exp: Exp)

  datatype Constructor = Constructor(params: seq<VarDec>, body: Statement)

  datatype MethodDef = MethodDef(returnType: Type, name: MethodName, params: seq<VarDec>, body: Statement)

  datatype Extends = Extends(name: ClassName, typeArgs: seq<Type>)

  datatype ClassDef = ClassDef(
    name: ClassName,
    ctor: Constructor,
    ext: Option<Extends>,
    fields: seq<VarDec>,
    methods: seq<MethodDef>,
    typeParams: seq<string>)

  datatype Program = Program(classDefs: seq<ClassDef>, statement: Statement)

  /** The text of the AST nodes whose printing code is not part of this model,
      given as opaque total functions:
      - exp:       Exp.emit() of every expression other than a variable
      - stmtEmit:  Statement.emit() of an if or while statement
      - stmtText:  Statement.toString() of a statement (a derived method's
                   body, a break)
      - varDec:    VarDec.toString()
      - typ:       Type.toString()
      - sameRef:   Java's == on two strings (reference identity)
      - fieldOrder: the keys of a HashMap<String,String>, in its iteration order */
  datatype Renderer = Renderer(
    exp: Exp -> string,
    stmtEmit: Statement -> string,
    stmtText: Statement -> string,
    varDec: VarDec -> string,
    typ: Type -> string,
    sameRef: (string, string) -> bool,
    fieldOrder: map<string, string> -> seq<string>)

  /** Java reference identity of two strings implies that their texts are equal. */
  ghost predicate SameRefSound(r: Renderer) {
    forall a: string, b: string :: r.sameRef(a, b) ==> a == b
  }

  /** order lists every key of m exactly once, as iterating a HashMap's
      entries does. */
  ghost predicate ListsKeys(m: map<string, string>, order: seq<string>)
  {
    && (forall k :: k in m <==> k in order)
    && (forall i, j :: 0 <= i < j < |order| ==> order[i] != order[j])
  }

  /** The iteration order of every map lists its keys exactly once, in some
      order. */
  ghost predicate FieldOrderSound(r: Renderer) {
    forall m: map<string, string> :: ListsKeys(m, r.fieldOrder(m))
  }

  /** Exp.emit(): a variable prints as its name; every other expression
      through the opaque renderer. */
  function Emit(r: Renderer, e: Exp): (s: string)
    ensures e.VariableExp? ==> s == e.name
  {
    match e
    case VariableExp(name) => name
    case _ => r.exp(e)
  }

  /** The failures of the pass. Each corresponds to a Java exception the
      source would raise (a null dereference, an out-of-range list access or a
      failed cast); all of them abort the compilation. */
  datatype Error =
    | UnknownClass(name: ClassName)
    | NullSuperclass(name: ClassName)
    | UnboundReceiver(variable: string)
    | UnknownMethodOnClass(cls: ClassName, methodName: MethodName)
    | ArgumentMissing(index: nat)
    | NotAnExpression

  datatype Option<+T> = None | Some(value: T)

  datatype Result<+T> = Ok(value: T) | Err(error: Error) {
    predicate IsFailure() { Err? }
    function PropagateFailure<U>(): Result<U>
      requires Err?
    {
      Err(error)
    }
    function Extract(): T
      requires Ok?
    {
      value
    }
  }

  datatype Outcome = Pass | Fail(error: Error)
}
