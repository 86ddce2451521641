/**
 * What the front end's parser accepts and how it fails, stated over the
 * functions of `ParserSpec` for any token stream.
 */
module ParserFacts {
  import opened Wrappers
  import opened Tokens
  import opened ParseLocations
  import opened Lexers
  import opened TokenStreams
  import opened AstNodes
  import opened ParserSpec

  /**
   * An accepted type starts with a reserved word naming it and is a
   * pointer exactly when a `*` follows that word.
   */
  lemma TypeDefShape(s: Stream, i: nat)
    requires TypeDefAt(s, i).Ok?
    ensures SimpleType(TypeDefAt(s, i).value.node)
    ensures TokAt(s, i).Ok? && TokAt(s, i).value.tag == RESERVED
    ensures TypeDefAt(s, i).value.node.loc == LocAt(s, i)
    ensures TypeDefAt(s, i).value.node.PtrType? <==> TokAt(s, i + 1).value.tag == ASTERISK
    ensures TypeDefAt(s, i).value.next == if TypeDefAt(s, i).value.node.PtrType? then i + 2 else i + 1
    ensures TypeDefAt(s, i).value.node.PrimType? ==> TypeDefAt(s, i).value.node.name == TokAt(s, i).value
    ensures TypeDefAt(s, i).value.node.PtrType? ==> TypeDefAt(s, i).value.node.target.name == TokAt(s, i).value
  {
  }

  /** A parameter is declared with a simple type and a local identifier. */
  predicate GoodParam(p: ParamDef)
  {
    SimpleType(p.ty) && p.name.tag == LOCAL_ID
  }

  /** Every parameter of a list is well formed. */
  predicate GoodParams(ps: seq<ParamDef>)
  {
    forall p :: p in ps ==> GoodParam(p)
  }

  /** An accepted parameter is a type followed by a local identifier, located where its type starts. */
  lemma ParamDefShape(s: Stream, i: nat)
    requires ParamDefAt(s, i).Ok?
    ensures GoodParam(ParamDefAt(s, i).value.node)
    ensures ParamDefAt(s, i).value.node.loc == LocAt(s, i) == ParamDefAt(s, i).value.node.ty.loc
    ensures TokAt(s, ParamDefAt(s, i).value.next - 1) == Ok(ParamDefAt(s, i).value.node.name)
  {
    TypeDefShape(s, i);
  }

  /**
   * The parameter loop keeps the parameters it started with, adds only
   * well-formed ones, and stops just after a closing parenthesis.
   */
  lemma {:induction false} ParamLoopShape(s: Stream, i: nat, acc: seq<ParamDef>) returns (r: Parsed<seq<ParamDef>>)
    requires ParamLoop(s, i, acc).Ok?
    ensures ParamLoop(s, i, acc) == Ok(r)
    ensures acc <= r.node
    ensures forall k :: |acc| <= k < |r.node| ==> GoodParam(r.node[k])
    ensures TokAt(s, r.next - 1).Ok? && TokAt(s, r.next - 1).value.tag == RIGHT_ROUND
    decreases if i <= |s.toks| then |s.toks| - i + 1 else 0
  {
    match ParamStepAt(s, i, acc)
    case Closed(c) =>
      ParamCloseShape(s, i, acc);
      r := c.value;
    case Item(j, more) =>
      ParamItemShape(s, i, acc);
      r := ParamLoopShape(s, j, more);
  }

  /** A pass that goes on has added one well-formed parameter. */
  lemma ParamItemShape(s: Stream, i: nat, acc: seq<ParamDef>)
    requires ParamStepAt(s, i, acc).Item?
    ensures |ParamStepAt(s, i, acc).acc| == |acc| + 1 && acc <= ParamStepAt(s, i, acc).acc
    ensures GoodParam(ParamStepAt(s, i, acc).acc[|acc|])
  {
    if TokAt(s, i).value.tag == RESERVED {
      ParamDefShape(s, i);
    } else {
      ParamDefShape(s, i + 1);
    }
  }

  /** A pass that closes the list successfully has read a closing parenthesis and added nothing. */
  lemma ParamCloseShape(s: Stream, i: nat, acc: seq<ParamDef>)
    requires ParamStepAt(s, i, acc).Closed? && ParamStepAt(s, i, acc).r.Ok?
    ensures ParamStepAt(s, i, acc).r.value == Parsed(acc, i + 1)
    ensures TokAt(s, i).Ok? && TokAt(s, i).value.tag == RIGHT_ROUND
  {
  }

  /** Every parameter of an accepted list is well formed, and the list opens and closes with parentheses. */
  lemma ParamListShape(s: Stream, i: nat)
    requires ParamListAt(s, i).Ok?
    ensures GoodParams(ParamListAt(s, i).value.node.list)
    ensures TokAt(s, i).Ok? && TokAt(s, i).value.tag == LEFT_ROUND
    ensures TokAt(s, ParamListAt(s, i).value.next - 1).Ok?
    ensures TokAt(s, ParamListAt(s, i).value.next - 1).value.tag == RIGHT_ROUND
  {
    var r := ParamLoopShape(s, i + 1, []);
  }

  /** `()` is the empty parameter list, located at its opening parenthesis. */
  lemma EmptyParamList(s: Stream, i: nat)
    requires TokAt(s, i).Ok? && TokAt(s, i).value.tag == LEFT_ROUND
    requires TokAt(s, i + 1).Ok? && TokAt(s, i + 1).value.tag == RIGHT_ROUND
    requires TokAt(s, i + 2).Ok?
    ensures ParamListAt(s, i) == Ok(Parsed(ParamList(LocAt(s, i), []), i + 2))
  {
  }

  /** A comma before the first parameter is refused, naming what could have come instead. */
  lemma LeadingCommaRejected(s: Stream, i: nat, t: Tok)
    requires TokAt(s, i) == Ok(t) && t.tag == COMMA
    ensures ParamLoop(s, i, []) == Err(Error([Pat(RIGHT_ROUND, ""), Pat(RESERVED, "")], t))
  {
  }

  /** Any token other than `)`, a type or a comma ends the list with a failure; once a parameter is read, a comma is named among the expected tokens. */
  lemma StrayTokenRejected(s: Stream, i: nat, acc: seq<ParamDef>, t: Tok)
    requires TokAt(s, i) == Ok(t) && t.tag !in {RIGHT_ROUND, RESERVED, COMMA}
    ensures ParamLoop(s, i, acc) == Err(Error(ListExpected(|acc| > 0), t))
    ensures Pat(COMMA, "") in ListExpected(|acc| > 0) <==> |acc| > 0
  {
  }

  /**
   * Parameters need not be separated: a parameter following another is
   * read the same with or without a comma before it.
   */
  lemma CommaOptional(s: Stream, i: nat, acc: seq<ParamDef>)
    requires |acc| > 0
    requires TokAt(s, i).Ok? && TokAt(s, i).value.tag == COMMA
    requires TokAt(s, i + 1).Ok? && TokAt(s, i + 1).value.tag == RESERVED
    requires ParamDefAt(s, i + 1).Ok?
    ensures ParamStepAt(s, i, acc) == ParamStepAt(s, i + 1, acc)
    ensures ParamStepAt(s, i, acc) == Item(ParamDefAt(s, i + 1).value.next, acc + [ParamDefAt(s, i + 1).value.node])
  {
  }

  /** An accepted signature starts with `define` and has a simple return type. */
  lemma FuncSigStart(s: Stream, i: nat)
    requires FuncSigAt(s, i).Ok?
    ensures TokAt(s, i).Ok? && TokAt(s, i).value.Equals(Pat(RESERVED, "define"))
    ensures FuncSigAt(s, i).value.node.loc == LocAt(s, i)
    ensures SimpleType(FuncSigAt(s, i).value.node.ret)
  {
    var ret := TypeDefAt(s, i + 1).value;
    TypeDefShape(s, i + 1);
    SigNameShape(s, ret.next, LocAt(s, i), ret.node);
  }

  /** An accepted signature has a global name and well-formed parameters, and ends with an attribute group. */
  lemma FuncSigRest(s: Stream, i: nat)
    requires FuncSigAt(s, i).Ok?
    ensures FuncSigAt(s, i).value.node.name.tag == GLOBAL_ID
    ensures GoodParams(FuncSigAt(s, i).value.node.param.list)
    ensures TokAt(s, FuncSigAt(s, i).value.next - 1).value.tag == GROUP_NUM
  {
    var ret := TypeDefAt(s, i + 1).value;
    SigNameShape(s, ret.next, LocAt(s, i), ret.node);
  }

  /** The part of a signature after its return type: a global name, well-formed parameters, then an attribute group. */
  lemma SigNameShape(s: Stream, i: nat, loc: Location, ret: TypeDef)
    requires SigNameAt(s, i, loc, ret).Ok?
    ensures SigNameAt(s, i, loc, ret).value.node.loc == loc && SigNameAt(s, i, loc, ret).value.node.ret == ret
    ensures SigNameAt(s, i, loc, ret).value.node.name.tag == GLOBAL_ID
    ensures GoodParams(SigNameAt(s, i, loc, ret).value.node.param.list)
    ensures TokAt(s, SigNameAt(s, i, loc, ret).value.next - 1).value.tag == GROUP_NUM
  {
    SigTailShape(s, i + 1, loc, ret, TokAt(s, i).value);
  }

  /** The part of a signature after its name: well-formed parameters, then an attribute group. */
  lemma SigTailShape(s: Stream, i: nat, loc: Location, ret: TypeDef, name: Tok)
    requires SigTailAt(s, i, loc, ret, name).Ok?
    ensures SigTailAt(s, i, loc, ret, name).value.node == FuncSig(loc, ret, name, SigTailAt(s, i, loc, ret, name).value.node.param)
    ensures GoodParams(SigTailAt(s, i, loc, ret, name).value.node.param.list)
    ensures TokAt(s, SigTailAt(s, i, loc, ret, name).value.next - 1).value.tag == GROUP_NUM
  {
    ParamListShape(s, i);
  }

  /**
   * A module parses only when the text holds no definition at all: the
   * first token is end of file, and the module is empty.
   */
  lemma ModuleAccepts(s: Stream, i: nat)
    ensures ModuleAt(s, i).Ok? <==> TokAt(s, i).Ok? && TokAt(s, i).value.Equals(Pat(EOF, ""))
    ensures ModuleAt(s, i).Ok? ==> ModuleAt(s, i).value == Module([])
  {
  }

  /** Defining a function makes the module fail: with the signature's failure, or because the body cannot be parsed. */
  lemma DefinitionFails(s: Stream, i: nat)
    requires TokAt(s, i).Ok? && TokAt(s, i).value.Equals(Pat(RESERVED, "define"))
    ensures ModuleAt(s, i).Err?
    ensures FuncSigAt(s, i).Ok? ==> ModuleAt(s, i) == Err(Runtime)
    ensures FuncSigAt(s, i).Err? ==> ModuleAt(s, i) == Err(FuncSigAt(s, i).error)
  {
  }

  /** A failure names each expected token in order, and the token found, at the found token's location. */
  lemma ErrorNames(wanted: seq<Tok>, got: Tok)
    ensures Error(wanted, got).line == got.loc.line as int && Error(wanted, got).column == got.loc.column as int
    ensures |Error(wanted, got).expected| == |wanted|
    ensures forall k :: 0 <= k < |wanted| ==> Error(wanted, got).expected[k] == TokenString(wanted[k])
    ensures Error(wanted, got).got == TokenString(got)
  {
    forall k | 0 <= k < |wanted|
      ensures Names(wanted)[k] == TokenString(wanted[k])
    {
      NamesAt(wanted, k);
    }
  }

  /** A pattern names its tag, except a reserved word with text, which is named by its text. */
  lemma TokenStringNames(t: Tok)
    ensures |TokenString(t)| > 0
    ensures t.tag != RESERVED ==> TokenString(t) == TagName(t.tag)
    ensures t.tag == RESERVED && t.str != [] ==> TokenString(t) == t.str
  {
  }

  /** The failure for a stray comma at the top level names `define` and `EOF`, and the comma. */
  lemma ModuleMessage(t: Tok)
    requires t.tag == COMMA
    ensures Join(Error([Pat(RESERVED, "define"), Pat(EOF, "")], t).expected) == "define, EOF"
    ensures Error([Pat(RESERVED, "define"), Pat(EOF, "")], t).got == "COMMA"
  {
    assert Names([Pat(RESERVED, "define")]) == ["define"];
    assert Error([Pat(RESERVED, "define"), Pat(EOF, "")], t).expected == ["define", "EOF"];
  }

  /**
   * As written, `parseModule` builds the failure for a stray token
   * without throwing it, so its loop goes round again at the same token,
   * forever; the model throws it.
   */
  lemma ModuleLoopStalls(s: Stream, i: nat, t: Tok)
    requires TokAt(s, i) == Ok(t)
    requires !t.Equals(Pat(RESERVED, "define")) && !t.Equals(Pat(EOF, ""))
    ensures ModuleStepAsWritten(s, i) == Again(i)
    ensures ModuleAt(s, i) == Err(Error([Pat(RESERVED, "define"), Pat(EOF, "")], t))
  {
  }
}
