/**
  The C# side of the translation: the parts of the CodeDOM-like code model
  that the method generator builds, and the two collaborators whose effects
  it depends on (the code-generation facade and the symbol generator).
 */
module CodeModel {
  import opened Wrappers
  import opened PySyntax

  /** The three types the method generator names: `object`, `Hashtable`
      and the generic `Tuple`. */
  datatype TypeName = ObjectName | HashtableName | TupleName

  /** A type reference: a type name and its generic arguments. */
  datatype TypeRef = TypeRef(name: TypeName, typeArgs: seq<TypeRef>)

  const ObjectType := TypeRef(ObjectName, [])
  const HashtableType := TypeRef(HashtableName, [])

  /** Expressions of the generated code. `TupleItem(t, i)` is the member
      access `t.Item<i>` (the member named "Item" followed by the decimal
      digits of `i`); `Translated(e)` is what the expression translator
      makes of the Python expression `e`. */
  datatype CodeExpr =
    | VarRef(name: string)
    | TupleItem(target: CodeExpr, index: nat)
    | Appl(fn: CodeExpr, args: seq<CodeExpr>)
    | Translated(source: Exp)

  /** Statements of the generated code. `Body(k)` is the k-th statement the
      statement translator produced for the Python body. */
  datatype Stmt =
    | VarDecl(vtype: TypeRef, name: string, init: CodeExpr)
    | Return(value: CodeExpr)
    | Body(k: nat)

  /** A formal parameter of a generated C# method. */
  datatype ParamDecl = ParamDecl(
    ptype: TypeRef,
    name: string,
    isVarargs: bool,
    default: Option<CodeExpr>)

  /** A generated method, whose statement list is changed in place. */
  class CodeMemberMethod {
    const name: string
    const isStatic: bool
    const parameters: seq<ParamDecl>
    var statements: seq<Stmt>

    constructor (name: string, isStatic: bool, parameters: seq<ParamDecl>, statements: seq<Stmt>)
      ensures this.name == name && this.isStatic == isStatic
      ensures this.parameters == parameters && this.statements == statements
    {
      this.name := name;
      this.isStatic := isStatic;
      this.parameters := parameters;
      this.statements := statements;
    }

    /** `Statements.Insert(0, s)`. */
    method InsertFirst(s: Stmt)
      modifies this
      ensures statements == [s] + old(statements)
    {
      statements := [s] + statements;
    }
  }

  /**
    The code-generation facade, reduced to its recorded effects: the methods
    it has built for the current class, in order, and the namespaces it has
    been asked to import (a set, so asking twice is the same as once).
   */
  class CodeGenerator {
    var members: seq<CodeMemberMethod>
    var imports: set<string>

    constructor ()
      ensures members == [] && imports == {}
    {
      members := [];
      imports := {};
    }

    /** `EnsureImport(ns)`. */
    method EnsureImport(ns: string)
      modifies this
      ensures imports == old(imports) + {ns}
      ensures members == old(members)
    {
      imports := imports + {ns};
    }

    /** `Method` and `StaticMethod`: build a method whose body is what the
        body-producing callback emitted, and add it to the current class. */
    method NewMethod(name: string, isStatic: bool, parms: seq<ParamDecl>, body: seq<Stmt>)
      returns (m: CodeMemberMethod)
      modifies this
      ensures fresh(m)
      ensures m.name == name && m.isStatic == isStatic
      ensures m.parameters == parms && m.statements == body
      ensures members == old(members) + [m] && imports == old(imports)
    {
      m := new CodeMemberMethod(name, isStatic, parms, body);
      members := members + [m];
    }

    method Method(name: string, parms: seq<ParamDecl>, body: seq<Stmt>) returns (m: CodeMemberMethod)
      modifies this
      ensures fresh(m)
      ensures m.name == name && !m.isStatic
      ensures m.parameters == parms && m.statements == body
      ensures members == old(members) + [m] && imports == old(imports)
    {
      m := NewMethod(name, false, parms, body);
    }

    method StaticMethod(name: string, parms: seq<ParamDecl>, body: seq<Stmt>) returns (m: CodeMemberMethod)
      modifies this
      ensures fresh(m)
      ensures m.name == name && m.isStatic
      ensures m.parameters == parms && m.statements == body
      ensures members == old(members) + [m] && imports == old(imports)
    {
      m := NewMethod(name, true, parms, body);
    }
  }

  /**
    The per-method symbol generator. Its naming scheme is not part of this
    model: `names(prefix, k)` stands for the name it makes the k-th time it
    is asked, and `next` counts how many names it has made.
   */
  class SymbolGenerator {
    const names: (string, nat) -> string
    var next: nat

    constructor (names: (string, nat) -> string)
      ensures this.names == names && next == 0
    {
      this.names := names;
      next := 0;
    }

    /** `GenSymParameter(prefix, type).Name`. */
    method GenSymParameter(prefix: string) returns (name: string)
      modifies this
      ensures name == names(prefix, old(next)) && next == old(next) + 1
    {
      name := names(prefix, next);
      next := next + 1;
    }
  }
}
