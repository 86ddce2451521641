/**
 * What the front end's parser computes, as functions of the token stream
 * and the index of the next unread token.  A parse step yields the node
 * and the index after it, or the failure it throws.
 *
 * Reading a token also looks at the token after it (the parser records
 * that token's location), so a read fails when lexing either one fails.
 */
module ParserSpec {
  import opened Wrappers
  import opened Tokens
  import opened ParseLocations
  import opened Lexers
  import opened TokenStreams
  import opened AstNodes

  datatype Parsed<T> = Parsed(node: T, next: nat)

  /** `Token(tag, str)`: a token used as a pattern; its location plays no part in comparisons. */
  function Pat(tag: TokenTag, str: string): Tok
  {
    Token(Start(), tag, str)
  }

  /** `tokenString`: how an expected or offending token is named in a message. */
  function TokenString(t: Tok): (r: string)
    ensures |r| > 0
    ensures t.tag != RESERVED || t.str == [] ==> r == TagName(t.tag)
    ensures t.tag == RESERVED && t.str != [] ==> r == t.str
  {
    if t.tag == RESERVED then (if t.str == [] then TagName(RESERVED) else t.str)
    else TagName(t.tag)
  }

  /** `", "`-separated items, as a list prints between its brackets. */
  function Join(xs: seq<string>): string
  {
    if xs == [] then ""
    else if |xs| == 1 then xs[0]
    else Join(xs[..|xs| - 1]) + ", " + xs[|xs| - 1]
  }

  /** The names of the expected tokens, in order. */
  function Names(ts: seq<Tok>): (r: seq<string>)
    ensures |r| == |ts|
  {
    if ts == [] then [] else Names(ts[..|ts| - 1]) + [TokenString(ts[|ts| - 1])]
  }

  /** Each expected token is named in its place. */
  lemma {:induction false} NamesAt(ts: seq<Tok>, k: nat)
    requires k < |ts|
    ensures Names(ts)[k] == TokenString(ts[k])
  {
    if k < |ts| - 1 {
      NamesAt(ts[..|ts| - 1], k);
    }
  }

  /** `error(expect, got)`: a parse failure at the offending token. */
  function Error(wanted: seq<Tok>, got: Tok): (f: Failure)
    ensures f.Unexpected? && f.line == got.loc.line as int && f.column == got.loc.column as int
    ensures |f.expected| == |wanted| && f.got == TokenString(got)
    ensures forall k :: 0 <= k < |wanted| ==> f.expected[k] == TokenString(wanted[k])
  {
    assert forall k :: 0 <= k < |wanted| ==> Names(wanted)[k] == TokenString(wanted[k]) by {
      forall k | 0 <= k < |wanted| ensures Names(wanted)[k] == TokenString(wanted[k]) { NamesAt(wanted, k); }
    }
    Unexpected(got.loc.line as int, got.loc.column as int, Names(wanted), TokenString(got))
  }

  /** The message of a parser's failure: the expected tokens as a printed list, then the token found. */
  function Message(f: Failure): (r: string)
    requires f.Unexpected?
    ensures |r| >= 16 + |f.got| && r[..8] == "Expect [" && r[|r| - 1] == '.'
    ensures r[|r| - |f.got| - 8..] == "], got " + f.got + "."
  {
    "Expect [" + Join(f.expected) + "], got " + f.got + "."
  }

  /** The parser's `loc` when the next unread token is the `i`-th: where that token starts. */
  function LocAt(s: Stream, i: nat): Location
    requires i == 0 || TokAt(s, i).Ok?
  {
    if i == 0 then Start() else TokAt(s, i).value.loc
  }

  /** `read`: the `i`-th token, once the token after it has been looked at. */
  function ReadAt(s: Stream, i: nat): (r: Result<Tok>)
    ensures r.Ok? <==> TokAt(s, i).Ok? && TokAt(s, i + 1).Ok?
    ensures r.Ok? ==> r.value == TokAt(s, i).value
    ensures r.Err? && TokAt(s, i).Err? ==> r.error == TokAt(s, i).error
  {
    match TokAt(s, i)
    case Err(f) => Err(f)
    case Ok(t) =>
      match TokAt(s, i + 1)
      case Err(f) => Err(f)
      case Ok(_) => Ok(t)
  }

  /** `expect(token)`: read a token equal to `pat`. */
  function ExpectTokAt(s: Stream, i: nat, pat: Tok): (o: Outcome)
    ensures o.Pass? <==> ReadAt(s, i).Ok? && ReadAt(s, i).value.Equals(pat)
  {
    match ReadAt(s, i)
    case Err(f) => Fail(f)
    case Ok(got) => if got.Equals(pat) then Pass else Fail(Error([pat], got))
  }

  /** `expect(tag)`: read a token with tag `tag` and return it. */
  function ExpectTagAt(s: Stream, i: nat, tag: TokenTag): (r: Result<Tok>)
    ensures r.Ok? <==> ReadAt(s, i).Ok? && ReadAt(s, i).value.tag == tag
    ensures r.Ok? ==> r.value == TokAt(s, i).value
  {
    match ReadAt(s, i)
    case Err(f) => Err(f)
    case Ok(got) => if got.tag == tag then Ok(got) else Err(Error([Pat(tag, "")], got))
  }

  /** `parsePrimType`: the reserved word read as a type name. */
  function PrimTypeAt(s: Stream, i: nat): Result<TypeDef>
  {
    match ReadAt(s, i)
    case Err(f) => Err(f)
    case Ok(name) => Ok(PrimType(LocAt(s, i), name))
  }

  /** `parsePtrType`: a `*` after `target` makes a pointer located where the target is. */
  function PtrTypeAt(s: Stream, i: nat, target: TypeDef): Result<TypeDef>
  {
    match ExpectTokAt(s, i, Pat(ASTERISK, ""))
    case Fail(f) => Err(f)
    case Pass => Ok(PtrType(target.loc, target))
  }

  /** A primitive type or a pointer to one: at most one `*` is taken. */
  predicate SimpleType(t: TypeDef)
  {
    t.PrimType? || (t.PtrType? && t.target.PrimType? && t.loc == t.target.loc)
  }

  /** `parseTypeDef`: a reserved word, optionally followed by `*`. */
  function TypeDefAt(s: Stream, i: nat): (r: Result<Parsed<TypeDef>>)
    ensures r.Ok? ==> i < r.value.next && TokAt(s, i).Ok? && TokAt(s, r.value.next).Ok?
  {
    match TokAt(s, i)
    case Err(f) => Err(f)
    case Ok(t) =>
      if t.tag != RESERVED then Err(Error([Pat(RESERVED, "")], t))
      else
        match PrimTypeAt(s, i)
        case Err(f) => Err(f)
        case Ok(ty) =>
          if TokAt(s, i + 1).value.tag == ASTERISK then
            match PtrTypeAt(s, i + 1, ty)
            case Err(f) => Err(f)
            case Ok(p) => Ok(Parsed(p, i + 2))
          else Ok(Parsed(ty, i + 1))
  }

  /** `parseParamDef`: a type and a local identifier. */
  function ParamDefAt(s: Stream, i: nat): (r: Result<Parsed<ParamDef>>)
    ensures r.Ok? ==> i + 2 <= r.value.next && TokAt(s, i).Ok? && TokAt(s, r.value.next).Ok?
  {
    match TypeDefAt(s, i)
    case Err(f) => Err(f)
    case Ok(ty) =>
      match ExpectTagAt(s, ty.next, LOCAL_ID)
      case Err(f) => Err(f)
      case Ok(name) => Ok(Parsed(ParamDef(LocAt(s, i), ty.node, name), ty.next + 1))
  }

  /** The expected tokens named when a parameter list goes wrong. */
  function ListExpected(started: bool): seq<Tok>
  {
    [Pat(RIGHT_ROUND, ""), Pat(RESERVED, "")] + (if started then [Pat(COMMA, "")] else [])
  }

  /** One pass of `parseParamList`'s loop: leave it with a result, or go on at token `next` with the parameters `acc`. */
  datatype ListStep = Closed(r: Result<Parsed<seq<ParamDef>>>) | Item(next: nat, acc: seq<ParamDef>)

  /**
   * One pass of the loop of `parseParamList` at token `i`, with the
   * parameters `acc` already parsed: the closing parenthesis ends the list,
   * a parameter (after a comma or not) is added to it, anything else fails.
   */
  function ParamStepAt(s: Stream, i: nat, acc: seq<ParamDef>): (r: ListStep)
    ensures r.Item? ==> i < r.next && i < |s.toks|
    ensures r.Closed? && r.r.Ok? ==> i < r.r.value.next && TokAt(s, r.r.value.next).Ok?
  {
    match TokAt(s, i)
    case Err(f) => Closed(Err(f))
    case Ok(t) =>
      if t.tag == RIGHT_ROUND then
        match ReadAt(s, i)
        case Err(f) => Closed(Err(f))
        case Ok(_) => Closed(Ok(Parsed(acc, i + 1)))
      else if t.tag == RESERVED then
        match ParamDefAt(s, i)
        case Err(f) => Closed(Err(f))
        case Ok(d) => Item(d.next, acc + [d.node])
      else if t.tag == COMMA then
        if |acc| == 0 then Closed(Err(Error(ListExpected(false), t)))
        else
          match ReadAt(s, i)
          case Err(f) => Closed(Err(f))
          case Ok(_) =>
            match ParamDefAt(s, i + 1)
            case Err(f) => Closed(Err(f))
            case Ok(d) => Item(d.next, acc + [d.node])
      else Closed(Err(Error(ListExpected(|acc| > 0), t)))
  }

  /** The loop of `parseParamList` from token `i` on, up to the closing parenthesis. */
  function ParamLoop(s: Stream, i: nat, acc: seq<ParamDef>): (r: Result<Parsed<seq<ParamDef>>>)
    ensures r.Ok? ==> i < r.value.next && TokAt(s, r.value.next).Ok?
    decreases if i <= |s.toks| then |s.toks| - i + 1 else 0
  {
    match ParamStepAt(s, i, acc)
    case Closed(r) => r
    case Item(j, more) => ParamLoop(s, j, more)
  }

  /** `parseParamList`: parameters between parentheses. */
  function ParamListAt(s: Stream, i: nat): (r: Result<Parsed<ParamList>>)
    ensures r.Ok? ==> i + 2 <= r.value.next && TokAt(s, r.value.next).Ok?
  {
    match ExpectTagAt(s, i, LEFT_ROUND)
    case Err(f) => Err(f)
    case Ok(_) =>
      match ParamLoop(s, i + 1, [])
      case Err(f) => Err(f)
      case Ok(l) => Ok(Parsed(ParamList(LocAt(s, i), l.node), l.next))
  }

  /** `parseFuncSig`: `define`, the return type, the name, the parameters and an attribute group. */
  function FuncSigAt(s: Stream, i: nat): (r: Result<Parsed<FuncSig>>)
    ensures r.Ok? ==> i + 6 <= r.value.next && TokAt(s, r.value.next).Ok?
  {
    match ExpectTokAt(s, i, Pat(RESERVED, "define"))
    case Fail(f) => Err(f)
    case Pass =>
      match TypeDefAt(s, i + 1)
      case Err(f) => Err(f)
      case Ok(ret) => SigNameAt(s, ret.next, LocAt(s, i), ret.node)
  }

  /** The rest of `parseFuncSig` from token `i` on, once the signature at `loc` has its return type. */
  function SigNameAt(s: Stream, i: nat, loc: Location, ret: TypeDef): (r: Result<Parsed<FuncSig>>)
    ensures r.Ok? ==> i + 4 <= r.value.next && TokAt(s, r.value.next).Ok?
  {
    match ExpectTagAt(s, i, GLOBAL_ID)
    case Err(f) => Err(f)
    case Ok(name) => SigTailAt(s, i + 1, loc, ret, name)
  }

  /** The rest of `parseFuncSig` from token `i` on, once the signature at `loc` has its return type and name. */
  function SigTailAt(s: Stream, i: nat, loc: Location, ret: TypeDef, name: Tok): (r: Result<Parsed<FuncSig>>)
    ensures r.Ok? ==> i + 3 <= r.value.next && TokAt(s, r.value.next).Ok?
  {
    match ParamListAt(s, i)
    case Err(f) => Err(f)
    case Ok(param) =>
      match ExpectTagAt(s, param.next, GROUP_NUM)
      case Err(f) => Err(f)
      case Ok(_) => Ok(Parsed(FuncSig(loc, ret, name, param.node), param.next + 1))
  }

  /**
   * `parseFuncDef`: the signature, then the body.  Parsing a body always
   * throws, so a definition never completes: this is the failure raised.
   */
  function FuncDefAt(s: Stream, i: nat): Failure
  {
    match FuncSigAt(s, i)
    case Err(f) => f
    case Ok(_) => Runtime
  }

  /** `parseModule`, with a token that can start nothing reported as a parse failure. */
  function ModuleAt(s: Stream, i: nat): (r: Result<Module>)
    ensures r.Ok? <==> TokAt(s, i).Ok? && TokAt(s, i).value.tag == EOF && TokAt(s, i).value.str == []
    ensures r.Ok? ==> r.value.func == []
    ensures TokAt(s, i).Err? ==> r == Err(TokAt(s, i).error)
  {
    match TokAt(s, i)
    case Err(f) => Err(f)
    case Ok(t) =>
      if t.Equals(Pat(RESERVED, "define")) then Err(FuncDefAt(s, i))
      else if t.Equals(Pat(EOF, "")) then Ok(Module([]))
      else Err(Error([Pat(RESERVED, "define"), Pat(EOF, "")], t))
  }

  /** One pass of `parseModule`'s loop as written: leave it with a result, or go round again at token `i`. */
  datatype Step = Exit(r: Result<Module>) | Again(i: nat)

  /** As written, the branch for any other token builds the failure but does not throw it. */
  function ModuleStepAsWritten(s: Stream, i: nat): Step
  {
    match TokAt(s, i)
    case Err(f) => Exit(Err(f))
    case Ok(t) =>
      if t.Equals(Pat(RESERVED, "define")) then Exit(Err(FuncDefAt(s, i)))
      else if t.Equals(Pat(EOF, "")) then Exit(Ok(Module([])))
      else var _ := Error([Pat(RESERVED, "define"), Pat(EOF, "")], t); Again(i)
  }
}
