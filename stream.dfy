/**
 * The tokens a lexer delivers from a given state, one `nextToken` after
 * another: the tokens before end of file, then either end of file, which
 * every later call delivers again, or the failure that stops the lexer.
 * Alongside the tokens the stream records where the lexer stands before
 * each of them.  The parser is specified over this stream.
 */
module TokenStreams {
  import opened Wrappers
  import opened Tokens
  import opened ParseLocations
  import opened Lexers

  /** A lexer's pointer and location. */
  datatype Pos = Pos(ptr: nat, loc: Location)

  /**
   * `toks` are the tokens before the end and `stops[k]` is where the lexer
   * stands before the `k`-th of them or, for `k == |toks|`, before the end;
   * `final` is where end of file leaves it.
   */
  datatype Lexing = Lexing(toks: seq<Tok>, end: Result<Tok>, stops: seq<Pos>, final: Pos)

  /** A stream that does not fail ends in end of file, which has no text. */
  type Stream = s: Lexing
    | |s.stops| == |s.toks| + 1 && (s.end.Ok? ==> s.end.value.tag == EOF && s.end.value.str == [])
    witness Lexing([], Err(Runtime), [Pos(0, Start())], Pos(0, Start()))

  /** The `k`-th token (from 0), or the failure that stops the stream before it. */
  function TokAt(s: Stream, k: nat): Result<Tok>
  {
    if k < |s.toks| then Ok(s.toks[k]) else s.end
  }

  /** Where the lexer stands once it has delivered `k` tokens. */
  function StopAt(s: Stream, k: nat): Pos
  {
    if k <= |s.toks| then s.stops[k] else s.final
  }

  /** What one scan tells about the state after it. */
  lemma ScanFacts(src: string, p: nat, l: Location)
    requires Scan(src, p, l).Ok?
    ensures var x := Scan(src, p, l).value;
      && (x.tok.tag == EOF ==> x.tok == WithTag(x.loc, EOF) && x.ptr >= |src|)
      && (x.tok.tag != EOF ==> p < x.ptr <= |src|)
  {
    if p <= |src| {
      var x := ScanWellScanned(src, p, l);
    }
  }

  /** The stream a lexer delivers from pointer `p` at location `l`. */
  function Lex(src: string, p: nat, l: Location): (s: Stream)
    ensures s.stops[0] == Pos(p, l)
    decreases if p <= |src| then |src| - p else 0
  {
    match Scan(src, p, l)
    case Err(f) => Lexing([], Err(f), [Pos(p, l)], Pos(p, l))
    case Ok(x) =>
      ScanFacts(src, p, l);
      if x.tok.tag == EOF then Lexing([], Ok(x.tok), [Pos(p, l)], Pos(x.ptr, x.loc))
      else
        var rest := Lex(src, x.ptr, x.loc);
        Lexing([x.tok] + rest.toks, rest.end, [Pos(p, l)] + rest.stops, rest.final)
  }

  /** End of file leaves the lexer where a further call finds end of file again. */
  lemma EofRepeats(src: string, p: nat, l: Location)
    requires Scan(src, p, l).Ok? && Scan(src, p, l).value.tok.tag == EOF
    ensures Scan(src, Scan(src, p, l).value.ptr, Scan(src, p, l).value.loc) == Scan(src, p, l)
  {
    ScanFacts(src, p, l);
  }

  /**
   * A lexer standing where the stream says it stands after `k` tokens
   * delivers the `k`-th token and then stands where the stream says it
   * stands after `k + 1`.
   */
  lemma {:induction false} LexChain(src: string, p: nat, l: Location, k: nat)
    ensures TokenOf(Scan(src, StopAt(Lex(src, p, l), k).ptr, StopAt(Lex(src, p, l), k).loc)) == TokAt(Lex(src, p, l), k)
    ensures Scan(src, StopAt(Lex(src, p, l), k).ptr, StopAt(Lex(src, p, l), k).loc).Ok? ==>
      var x := Scan(src, StopAt(Lex(src, p, l), k).ptr, StopAt(Lex(src, p, l), k).loc).value;
      Pos(x.ptr, x.loc) == StopAt(Lex(src, p, l), k + 1)
    decreases if p <= |src| then |src| - p else 0
  {
    var s := Lex(src, p, l);
    match Scan(src, p, l)
    case Err(f) =>
    case Ok(x) =>
      ScanFacts(src, p, l);
      if x.tok.tag == EOF {
        EofRepeats(src, p, l);
      } else if k > 0 {
        var rest := Lex(src, x.ptr, x.loc);
        assert StopAt(s, k) == StopAt(rest, k - 1) && StopAt(s, k + 1) == StopAt(rest, k);
        assert TokAt(s, k) == TokAt(rest, k - 1);
        LexChain(src, x.ptr, x.loc, k - 1);
      }
  }

  /** Every token of a stream has its tag's shape, and only its end is end of file. */
  lemma {:induction false} LexWellShaped(src: string, p: nat, l: Location, k: nat)
    requires TokAt(Lex(src, p, l), k).Ok?
    ensures Matches(TokAt(Lex(src, p, l), k).value.tag, TokAt(Lex(src, p, l), k).value.str)
    ensures k < |Lex(src, p, l).toks| ==> TokAt(Lex(src, p, l), k).value.tag != EOF
    decreases if p <= |src| then |src| - p else 0
  {
    ScanFacts(src, p, l);
    var x := Scan(src, p, l).value;
    if p <= |src| {
      var y := ScanWellScanned(src, p, l);
    }
    if x.tok.tag != EOF && k > 0 {
      LexWellShaped(src, x.ptr, x.loc, k - 1);
    }
  }

  /**
   * A lexer standing where `s` says it stands after `k` tokens delivers
   * the `k`-th token and then stands where `s` says it stands after `k + 1`.
   */
  ghost predicate Agrees(src: string, s: Stream, k: nat)
  {
    var q := StopAt(s, k);
    && TokenOf(Scan(src, q.ptr, q.loc)) == TokAt(s, k)
    && (Scan(src, q.ptr, q.loc).Ok? ==>
          Pos(Scan(src, q.ptr, q.loc).value.ptr, Scan(src, q.ptr, q.loc).value.loc) == StopAt(s, k + 1))
  }

  /** `s` is what lexing `src` delivers, token after token. */
  ghost predicate LexedBy(src: string, s: Stream)
  {
    forall k: nat :: Agrees(src, s, k)
  }

  /** The stream lexed from any state is what the lexer then delivers. */
  lemma LexIsLexed(src: string, p: nat, l: Location)
    ensures LexedBy(src, Lex(src, p, l))
  {
    forall k: nat
      ensures Agrees(src, Lex(src, p, l), k)
    {
      LexChain(src, p, l, k);
    }
  }
}
