/**
 * `ast.CastNode`: a cast expression holds its operand and the target type
 * named in the source text. The type is fixed once, when the node is built.
 */
module CastNodes {
  import opened Wrappers
  import opened Scope

  /** The node's two fields; `E` is the type of the operand expression. */
  datatype CastNode<E> = CastNode(expr: E, ty: InnerType)

  /** `getTypefromString`: "int" and "float" are the only castable type names. */
  function GetTypeFromString(s: string): (r: Result<InnerType, string>)
    ensures r.Ok? <==> s == "int" || s == "float"
    ensures r.Ok? ==> (r.value == INT <==> s == "int") && (r.value == FLOAT <==> s == "float")
    ensures r.Err? ==> r.error == "Unrecognized type"
  {
    match s
    case "int" => Ok(INT)
    case "float" => Ok(FLOAT)
    case _ => Err("Unrecognized type")
  }

  /**
   * The constructor `CastNode(expr, type)`: it fails exactly when the type
   * name is not recognised, and otherwise keeps the operand as given.
   */
  function NewCastNode<E>(expr: E, typeName: string): (r: Result<CastNode<E>, string>)
    ensures r.Ok? <==> GetTypeFromString(typeName).Ok?
    ensures r.Ok? ==> r.value.expr == expr && r.value.ty == GetTypeFromString(typeName).value
    ensures r.Err? ==> r.error == "Unrecognized type"
  {
    var t :- GetTypeFromString(typeName);
    Ok(CastNode(expr, t))
  }

  /** `getExpr`. */
  function GetExpr<E>(c: CastNode<E>): E
  {
    c.expr
  }

  /** `getType`: the type chosen at construction. */
  function GetType<E>(c: CastNode<E>): InnerType
  {
    c.ty
  }

  /**
   * A node built from "int" answers INT and one built from "float" answers
   * FLOAT, and either gives back the operand it was built with.
   */
  lemma CastNodeAccessors<E>(expr: E, typeName: string)
    requires typeName == "int" || typeName == "float"
    ensures NewCastNode(expr, typeName).Ok?
    ensures GetExpr(NewCastNode(expr, typeName).value) == expr
    ensures GetType(NewCastNode(expr, typeName).value) == (if typeName == "int" then INT else FLOAT)
  {
    var r := GetTypeFromString(typeName);
    assert r.Ok? && (r.value == INT <==> typeName == "int") && (r.value == FLOAT <==> typeName == "float");
  }
}
