/**
 * The front end's recursive-descent parser.  It pulls tokens from a lexer
 * on demand into a look-ahead buffer, and every parse method is proved to
 * compute what the matching function of `ParserSpec` says it does on the
 * token stream the lexer delivers.
 */
module Parsers {
  import opened Wrappers
  import opened Tokens
  import opened ParseLocations
  import opened Lexers
  import opened TokenStreams
  import opened AstNodes
  import opened ParserSpec

  /** A method's result and the parser's new position, in the form the specification uses. */
  function Located<T>(r: Result<T>, next: nat): Result<Parsed<T>>
  {
    match r
    case Ok(v) => Ok(Parsed(v, next))
    case Err(f) => Err(f)
  }

  /** The outcome of one pass of a parse loop: leave it with a result, or go on with the accumulated value. */
  datatype Pass<T> = Done(r: Result<T>) | More(acc: T)

  /** A pass of the parameter loop and the parser's new position, in the form the specification uses. */
  function Stepped(step: Pass<seq<ParamDef>>, next: nat): ListStep
  {
    match step
    case Done(r) => Closed(Located(r, next))
    case More(acc) => Item(next, acc)
  }

  class Parser {
    const lexer: Lexer
    /** Tokens already taken from the lexer but not yet read. */
    var buf: seq<Tok>
    /** Where the next unread token begins. */
    var loc: Location
    /** The tokens the lexer delivers from that state. */
    ghost const stream: Stream
    /** How many tokens have been read. */
    ghost var pos: nat

    /** The buffer holds the tokens after the read ones, and the lexer stands after them. */
    ghost predicate Synced()
      reads this`buf, this`pos, lexer`ptr, lexer`loc
    {
      && LexedBy(lexer.src, stream)
      && Pos(lexer.ptr, lexer.loc) == StopAt(stream, pos + |buf|)
      && forall j :: 0 <= j < |buf| ==> TokAt(stream, pos + j) == Ok(buf[j])
    }

    /** In addition, `loc` is where the next unread token begins. */
    ghost predicate Valid()
      reads this`buf, this`pos, this`loc, lexer`ptr, lexer`loc
    {
      && Synced()
      && (pos == 0 || (|buf| > 0 && TokAt(stream, pos) == Ok(buf[0])))
      && loc == LocAt(stream, pos)
    }

    constructor (lexer: Lexer)
      ensures this.lexer == lexer && buf == [] && pos == 0
      ensures stream == Lex(lexer.src, lexer.ptr, lexer.loc)
      ensures Valid()
    {
      this.lexer := lexer;
      buf, loc := [], Start();
      stream := Lex(lexer.src, lexer.ptr, lexer.loc);
      LexIsLexed(lexer.src, lexer.ptr, lexer.loc);
      pos := 0;
    }

    /** `peek`: the token `idx` places after the read ones, lexing as many as are missing. */
    method Peek(idx: nat) returns (r: Result<Tok>)
      requires Synced()
      modifies this, lexer
      ensures r == TokAt(stream, old(pos) + idx)
      ensures pos == old(pos) && loc == old(loc) && old(buf) <= buf
      ensures r.Ok? ==> Synced() && idx < |buf|
    {
      if idx >= |buf| {
        var n := idx - |buf| + 1;
        ghost var b0 := |buf|;
        for k := 0 to n
          invariant Synced() && |buf| == b0 + k
          invariant pos == old(pos) && loc == old(loc) && old(buf) <= buf
        {
          assert Agrees(lexer.src, stream, pos + |buf|);
          var t := lexer.NextToken();
          if t.Err? {
            return Err(t.error);
          }
          buf := buf + [t.value];
        }
      }
      return Ok(buf[idx]);
    }

    /** `read`: take the next token, then look at the one after it to learn where it begins. */
    method Read() returns (r: Result<Tok>)
      requires Valid()
      modifies this, lexer
      ensures r == ReadAt(stream, old(pos))
      ensures r.Ok? ==> Valid() && pos == old(pos) + 1
    {
      var tok: Tok;
      if |buf| == 0 {
        assert Agrees(lexer.src, stream, pos + |buf|);
        var t := lexer.NextToken();
        if t.Err? {
          return Err(t.error);
        }
        tok := t.value;
      } else {
        tok := buf[0];
        buf := buf[1..];
      }
      pos := pos + 1;
      var next := Peek(0);
      if next.Err? {
        return Err(next.error);
      }
      loc := next.value.loc;
      return Ok(tok);
    }

    /** `expect(token)`: read a token equal to `pat`. */
    method ExpectToken(pat: Tok) returns (o: Outcome)
      requires Valid()
      modifies this, lexer
      ensures o == ExpectTokAt(stream, old(pos), pat)
      ensures o.Pass? ==> Valid() && pos == old(pos) + 1
    {
      var got := Read();
      if got.Err? {
        return Fail(got.error);
      }
      if !got.value.Equals(pat) {
        return Fail(Error([pat], got.value));
      }
      return Pass;
    }

    /** `expect(tag)`: read a token with tag `tag`. */
    method ExpectTag(tag: TokenTag) returns (r: Result<Tok>)
      requires Valid()
      modifies this, lexer
      ensures r == ExpectTagAt(stream, old(pos), tag)
      ensures r.Ok? ==> Valid() && pos == old(pos) + 1
    {
      var got := Read();
      if got.Err? {
        return got;
      }
      if got.value.tag != tag {
        return Err(Error([Pat(tag, "")], got.value));
      }
      return got;
    }

    /** `parsePrimType`: the next token names a primitive type. */
    method ParsePrimType() returns (r: Result<TypeDef>)
      requires Valid()
      modifies this, lexer
      ensures r == PrimTypeAt(stream, old(pos))
      ensures r.Ok? ==> Valid() && pos == old(pos) + 1
    {
      var start := loc;
      var name := Read();
      if name.Err? {
        return Err(name.error);
      }
      return Ok(PrimType(start, name.value));
    }

    /** `parsePtrType`: a `*` after `target`. */
    method ParsePtrType(target: TypeDef) returns (r: Result<TypeDef>)
      requires Valid()
      modifies this, lexer
      ensures r == PtrTypeAt(stream, old(pos), target)
      ensures r.Ok? ==> Valid() && pos == old(pos) + 1
    {
      var o := ExpectToken(Pat(ASTERISK, ""));
      if o.Fail? {
        return Err(o.error);
      }
      return Ok(PtrType(target.loc, target));
    }

    /** `parseTypeDef`: a primitive type, made a pointer by a following `*`. */
    method ParseTypeDef() returns (r: Result<TypeDef>)
      requires Valid()
      modifies this, lexer
      ensures Located(r, pos) == TypeDefAt(stream, old(pos))
      ensures r.Ok? ==> Valid()
    {
      ghost var p0 := pos;
      var first := Peek(0);
      if first.Err? {
        assert Located(Err(first.error), pos) == TypeDefAt(stream, p0);
        return Err(first.error);
      }
      if first.value.tag != RESERVED {
        assert Located(Err(Error([Pat(RESERVED, "")], first.value)), pos) == TypeDefAt(stream, p0);
        return Err(Error([Pat(RESERVED, "")], first.value));
      }
      var ty := ParsePrimType();
      if ty.Err? {
        assert Located(ty, pos) == TypeDefAt(stream, p0);
        return ty;
      }
      var after := Peek(0);
      assert after.Ok?;
      if after.value.tag == ASTERISK {
        r := ParsePtrType(ty.value);
      } else {
        r := ty;
      }
    }

    /** `parseParamDef`: a type and a local identifier. */
    method ParseParamDef() returns (r: Result<ParamDef>)
      requires Valid()
      modifies this, lexer
      ensures Located(r, pos) == ParamDefAt(stream, old(pos))
      ensures r.Ok? ==> Valid()
    {
      ghost var p0 := pos;
      var start := loc;
      var ty := ParseTypeDef();
      if ty.Err? {
        assert Located(Err(ty.error), pos) == ParamDefAt(stream, p0);
        return Err(ty.error);
      }
      var name := ExpectTag(LOCAL_ID);
      if name.Err? {
        assert Located(Err(name.error), pos) == ParamDefAt(stream, p0);
        return Err(name.error);
      }
      assert Located(Ok(ParamDef(start, ty.value, name.value)), pos) == ParamDefAt(stream, p0);
      return Ok(ParamDef(start, ty.value, name.value));
    }

    /** `parseParamList`: parameters in parentheses, until the closing one is read. */
    method ParseParamList() returns (r: Result<ParamList>)
      requires Valid()
      modifies this, lexer
      ensures Located(r, pos) == ParamListAt(stream, old(pos))
      ensures r.Ok? ==> Valid()
    {
      var start := loc;
      var o := ExpectTag(LEFT_ROUND);
      if o.Err? {
        return Err(o.error);
      }
      var list := ParseParams();
      if list.Err? {
        return Err(list.error);
      }
      return Ok(ParamList(start, list.value));
    }

    /** The loop of `parseParamList`, after the opening parenthesis up to and including the closing one. */
    method ParseParams() returns (r: Result<seq<ParamDef>>)
      requires Valid()
      modifies this, lexer
      ensures Located(r, pos) == ParamLoop(stream, old(pos), [])
      ensures r.Ok? ==> Valid()
    {
      ghost var goal := ParamLoop(stream, pos, []);
      var list: seq<ParamDef> := [];
      while true
        invariant Valid() && old(pos) <= pos
        invariant ParamLoop(stream, pos, list) == goal
        decreases if pos <= |stream.toks| then |stream.toks| - pos + 1 else 0
      {
        var step := ParamStep(list);
        if step.Done? {
          return step.r;
        }
        list := step.acc;
      }
    }

    /** One pass of `parseParamList`'s loop, with the parameters `list` read so far. */
    method ParamStep(list: seq<ParamDef>) returns (step: Pass<seq<ParamDef>>)
      requires Valid()
      modifies this, lexer
      ensures Stepped(step, pos) == ParamStepAt(stream, old(pos), list)
      ensures step.More? || step.r.Ok? ==> Valid()
    {
      var next := Peek(0);
      if next.Err? {
        return Done(Err(next.error));
      }
      var t := next.value;
      if t.tag == RIGHT_ROUND {
        var close := Read();
        if close.Err? {
          return Done(Err(close.error));
        }
        return Done(Ok(list));
      } else if t.tag == RESERVED {
        var d := ParseParamDef();
        if d.Err? {
          return Done(Err(d.error));
        }
        return More(list + [d.value]);
      } else if t.tag == COMMA {
        if |list| == 0 {
          return Done(Err(Error(ListExpected(false), t)));
        }
        step := ParamAfterComma(list);
      } else {
        return Done(Err(Error(ListExpected(|list| > 0), t)));
      }
    }

    /** The comma branch of that pass: read the comma, then the parameter after it. */
    method ParamAfterComma(list: seq<ParamDef>) returns (step: Pass<seq<ParamDef>>)
      requires Valid() && |list| > 0
      requires TokAt(stream, pos).Ok? && TokAt(stream, pos).value.tag == COMMA
      modifies this, lexer
      ensures Stepped(step, pos) == ParamStepAt(stream, old(pos), list)
      ensures step.More? || step.r.Ok? ==> Valid()
    {
      var comma := Read();
      if comma.Err? {
        return Done(Err(comma.error));
      }
      var d := ParseParamDef();
      if d.Err? {
        return Done(Err(d.error));
      }
      return More(list + [d.value]);
    }

    /** `parseFuncSig`: `define`, the return type, the name, the parameters and an attribute group. */
    method ParseFuncSig() returns (r: Result<FuncSig>)
      requires Valid()
      modifies this, lexer
      ensures Located(r, pos) == FuncSigAt(stream, old(pos))
      ensures r.Ok? ==> Valid()
    {
      var start := loc;
      var o := ExpectToken(Pat(RESERVED, "define"));
      if o.Fail? {
        return Err(o.error);
      }
      var ret := ParseTypeDef();
      if ret.Err? {
        return Err(ret.error);
      }
      r := ParseSigName(start, ret.value);
    }

    /** The rest of `parseFuncSig`: the name, the parameters and the attribute group of the signature at `start`. */
    method ParseSigName(start: Location, ret: TypeDef) returns (r: Result<FuncSig>)
      requires Valid()
      modifies this, lexer
      ensures Located(r, pos) == SigNameAt(stream, old(pos), start, ret)
      ensures r.Ok? ==> Valid()
    {
      var name := ExpectTag(GLOBAL_ID);
      if name.Err? {
        return Err(name.error);
      }
      r := ParseSigTail(start, ret, name.value);
    }

    /** The rest of `parseFuncSig`: the parameters and the attribute group of the signature at `start`. */
    method ParseSigTail(start: Location, ret: TypeDef, name: Tok) returns (r: Result<FuncSig>)
      requires Valid()
      modifies this, lexer
      ensures Located(r, pos) == SigTailAt(stream, old(pos), start, ret, name)
      ensures r.Ok? ==> Valid()
    {
      var param := ParseParamList();
      if param.Err? {
        return Err(param.error);
      }
      var group := ExpectTag(GROUP_NUM);
      if group.Err? {
        return Err(group.error);
      }
      return Ok(FuncSig(start, ret, name, param.value));
    }

    /** `parseFuncBody`: function bodies are not parsed; this always throws. */
    method ParseFuncBody() returns (r: Result<FuncBody>)
      ensures r == Err(Runtime)
    {
      return Err(Runtime);
    }

    /** `parseFuncDef`: a signature and a body; since the body always fails, so does this. */
    method ParseFuncDef() returns (r: Result<FuncDef>)
      requires Valid()
      modifies this, lexer
      ensures r == Err(FuncDefAt(stream, old(pos)))
    {
      var sig := ParseFuncSig();
      if sig.Err? {
        return Err(sig.error);
      }
      // The body never parses, so no `FuncDef` is ever built.
      var body := ParseFuncBody();
      return Err(body.error);
    }

    /**
     * `parseModule`, with the failure for an unexpected token thrown.  Every
     * branch of the source's loop leaves it on the first pass (a definition
     * always throws, end of file breaks), so no loop remains.
     */
    method ParseModule() returns (r: Result<Module>)
      requires Valid()
      modifies this, lexer
      ensures r == ModuleAt(stream, old(pos))
    {
      var first := Peek(0);
      if first.Err? {
        return Err(first.error);
      }
      var t := first.value;
      if t.Equals(Pat(RESERVED, "define")) {
        var f := ParseFuncDef();
        return Err(f.error);
      } else if t.Equals(Pat(EOF, "")) {
        return Ok(Module([]));
      }
      return Err(Error([Pat(RESERVED, "define"), Pat(EOF, "")], t));
    }
  }
}
