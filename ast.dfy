/**
 * The syntax tree the front end's parser builds.  Every node records the
 * location where its text begins.
 */
module AstNodes {
  import opened ParseLocations
  import opened Lexers

  /** A primitive type named by a reserved word, or a pointer to a type. */
  datatype TypeDef =
    | PrimType(loc: Location, name: Tok)
    | PtrType(loc: Location, target: TypeDef)

  datatype ParamDef = ParamDef(loc: Location, ty: TypeDef, name: Tok)

  datatype ParamList = ParamList(loc: Location, list: seq<ParamDef>)

  datatype FuncSig = FuncSig(loc: Location, ret: TypeDef, name: Tok, param: ParamList)

  /** A function body; its blocks and instructions are never parsed. */
  datatype FuncBody = FuncBody(loc: Location)

  datatype FuncDef = FuncDef(loc: Location, sig: FuncSig, body: FuncBody)

  /** The whole program: its function definitions, located at the start of the text. */
  datatype Module = Module(func: seq<FuncDef>)
}
