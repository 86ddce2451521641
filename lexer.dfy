/**
 * The front end's lexer.  It walks a source text with a pointer and a
 * location, buffering the characters of the token under construction and
 * remembering which kind of token that is.  `nextToken` runs this state
 * machine until one token is complete.
 *
 * `Scan` below says declaratively which token comes next from a given
 * position; `Lexer.NextToken` is the state machine, proved to return what
 * `Scan` says and to leave the pointer and location where `Scan` says.
 */
module Lexers {
  import opened Wrappers
  import opened Jvm
  import opened Tokens
  import opened ParseLocations

  type Tok = Token<Location>

  // ---------------------------------------------------------------------
  // Character classes (ASCII).

  predicate IsMark(c: char) { c == '.' || c == '_' }

  predicate IsAlphaMark(c: char) { IsMark(c) || 'A' <= c <= 'Z' || 'a' <= c <= 'z' }

  predicate IsAlphaDigitMark(c: char) { IsAlphaMark(c) || IsDigit(c) }

  /** The characters that may continue a buffered token. */
  datatype CharClass = Word | Number {
    predicate Has(c: char) {
      match this
      case Word => IsAlphaDigitMark(c)
      case Number => IsDigit(c)
    }
  }

  /** The tags whose text is collected in the buffer, with the class that extends them. */
  predicate Buffered(t: TokenTag)
  {
    t == RESERVED || t == GLOBAL_ID || t == LOCAL_ID || t == DIGITS || t == GROUP_NUM
  }

  function ClassOf(t: TokenTag): CharClass
  {
    if t == DIGITS || t == GROUP_NUM then Number else Word
  }

  /** The single-character tokens. */
  function Punctuation(c: char): Option<TokenTag>
  {
    match c
    case '=' => Some(EQUAL)
    case ',' => Some(COMMA)
    case ':' => Some(COLON)
    case '*' => Some(ASTERISK)
    case '(' => Some(LEFT_ROUND)
    case ')' => Some(RIGHT_ROUND)
    case '{' => Some(LEFT_CURLY)
    case '}' => Some(RIGHT_CURLY)
    case _ => None
  }

  /** How the lexer names a class in its error messages. */
  function ClassText(cls: CharClass): string
  {
    match cls
    case Word => "[A-Za-z0-9._]"
    case Number => "[0-9]"
  }

  /** The characters that start a token with a sign in front: `@`, `%`, `#` and `-`. */
  predicate IsSigil(c: char) { c == '@' || c == '%' || c == '#' || c == '-' }

  /** The tag of a token that starts with sign `c`. */
  function SigilTag(c: char): TokenTag
    requires IsSigil(c)
  {
    match c
    case '@' => GLOBAL_ID
    case '%' => LOCAL_ID
    case '#' => GROUP_NUM
    case '-' => DIGITS
  }

  /**
   * How many characters a signed token has buffered when its run begins:
   * the sign and the first character, except after `-`, where the first
   * digit is read by the run itself.
   */
  function SigilWidth(c: char): nat
  {
    if c == '-' then 1 else 2
  }

  // ---------------------------------------------------------------------
  // Positions in the text.

  /** `peek`: the character at `i`, or NUL past the end. */
  function PeekAt(src: string, i: nat): char
  {
    if i < |src| then src[i] else '\0'
  }

  /** How reading `c` moves the location. */
  function Advance(l: Location, c: char): Location
  {
    if c == '\n' then l.NewLine() else l.Shift()
  }

  /** The location `n` characters further on the same line. */
  function Shifted(l: Location, n: int): (r: Location)
    ensures r.line == l.line && r.column == Wrap(l.column as int + n)
  {
    Location(l.line, Wrap(l.column as int + n))
  }

  /** The end of the longest run of `cls` characters starting at `i`. */
  function RunEnd(src: string, i: nat, cls: CharClass): (e: nat)
    requires i <= |src|
    ensures i <= e <= |src|
    ensures forall k :: i <= k < e ==> cls.Has(src[k])
    ensures e < |src| ==> !cls.Has(src[e])
    decreases |src| - i
  {
    if i < |src| && cls.Has(src[i]) then RunEnd(src, i + 1, cls) else i
  }

  /** The index of the first line break at or after `i`, if there is one. */
  function LineEnd(src: string, i: nat): (r: Option<nat>)
    requires i <= |src|
    ensures r.None? ==> forall k :: i <= k < |src| ==> src[k] != '\n'
    ensures r.Some? ==> i <= r.value < |src| && src[r.value] == '\n'
    ensures r.Some? ==> forall k :: i <= k < r.value ==> src[k] != '\n'
    decreases |src| - i
  {
    if i == |src| then None
    else if src[i] == '\n' then Some(i)
    else LineEnd(src, i + 1)
  }

  /** `error(expect)`: a parse failure at `l` naming the expected class and the character seen. */
  function ExpectError(l: Location, wanted: string, got: char): Failure
  {
    ParseFailure(l.line as int, l.column as int, "Expect " + wanted + ", got " + [got] + ".")
  }

  // ---------------------------------------------------------------------
  // What the next token is.

  /** A token, the pointer after it and the location after it. */
  datatype Lexed = Lexed(tok: Tok, ptr: nat, loc: Location)

  /**
   * The token starting at `p`, at location `l`, or the failure that reading
   * it raises.  Blanks, comments and empty lines are skipped first.
   */
  function Scan(src: string, p: nat, l: Location): (r: Result<Lexed>)
    ensures r.Ok? ==> p <= r.value.ptr && (p <= |src| ==> r.value.ptr <= |src|)
    decreases |src| - p, 1
  {
    if p >= |src| then Ok(Lexed(WithTag(l, EOF), p, l))
    else
      var c := src[p];
      if IsAlphaMark(c) then Finish(src, p, l, RunEnd(src, p, Word), RESERVED)
      else if IsDigit(c) then Finish(src, p, l, RunEnd(src, p, Number), DIGITS)
      else if IsSigil(c) then
        var t := SigilTag(c);
        if ClassOf(t).Has(PeekAt(src, p + 1)) then Finish(src, p, l, RunEnd(src, p + SigilWidth(c), ClassOf(t)), t)
        else Err(ExpectError(l.Shift(), ClassText(ClassOf(t)), PeekAt(src, p + 1)))
      else if c == ';' then
        match LineEnd(src, p + 1)
        case None => Err(IndexOutOfBounds)
        case Some(n) => Scan(src, n + 1, l.NewLine())
      else if Punctuation(c).Some? then Ok(Lexed(WithTag(l, Punctuation(c).value), p + 1, l.Shift()))
      else if c == '\n' then
        if l.column == 0 then Scan(src, p + 1, l.NewLine())
        else Ok(Lexed(WithTag(l, NEW_LINE), p + 1, l.NewLine()))
      else if c == ' ' || c == '\r' || c == '\t' then Scan(src, p + 1, l.Shift())
      else Err(ParseFailure(l.line as int, l.column as int, "Unknown character: " + [c]))
  }

  /**
   * The token whose text is `src[s..e]`, started at location `l` with tag
   * `t`.  A word followed by more input is checked against the words that
   * make the lexer skip code: `target` skips the rest of its line,
   * `attributes` ends the input.
   */
  function Finish(src: string, s: nat, l: Location, e: nat, t: TokenTag): (r: Result<Lexed>)
    requires s <= e <= |src|
    ensures r.Ok? ==> e <= r.value.ptr <= |src|
    decreases |src| - s, 0
  {
    var w := src[s..e];
    if t == RESERVED && e < |src| && w == "target" then
      match LineEnd(src, e)
      case None => Err(IndexOutOfBounds)
      case Some(n) => Scan(src, n + 1, l.NewLine())
    else if t == RESERVED && e < |src| && w == "attributes" then
      Ok(Lexed(WithTag(Shifted(l, |w|), EOF), |src|, Shifted(l, |w|)))
    else Ok(Lexed(Token(l, t, w), e, Shifted(l, |w|)))
  }

  /** What `nextToken` returns for a scan result. */
  function TokenOf(r: Result<Lexed>): Result<Tok>
  {
    match r
    case Ok(x) => Ok(x.tok)
    case Err(f) => Err(f)
  }

  // ---------------------------------------------------------------------
  // What a token looks like.

  predicate AllIn(w: string, cls: CharClass)
  {
    forall k :: 0 <= k < |w| ==> cls.Has(w[k])
  }

  /** The shape each tag's text has, as the token kinds are documented. */
  predicate Matches(t: TokenTag, w: string)
  {
    match t
    case RESERVED => |w| >= 1 && IsAlphaMark(w[0]) && AllIn(w[1..], Word)
    case GLOBAL_ID => |w| >= 2 && w[0] == '@' && AllIn(w[1..], Word)
    case LOCAL_ID => |w| >= 2 && w[0] == '%' && AllIn(w[1..], Word)
    case DIGITS => (|w| >= 1 && AllIn(w, Number)) || (|w| >= 2 && w[0] == '-' && AllIn(w[1..], Number))
    case GROUP_NUM => |w| >= 2 && w[0] == '#' && AllIn(w[1..], Number)
    case _ => w == []
  }

  /**
   * What every scanned token satisfies: its text has its tag's shape and
   * is the source text just before the new pointer; a buffered token is
   * as long as possible; only end of file leaves the pointer where it
   * was, and end of file is found where the lexer then stands; a line
   * break token never ends an empty line.
   */
  ghost predicate WellScanned(src: string, p: nat, x: Lexed)
  {
    p <= x.ptr <= |src|
    && Matches(x.tok.tag, x.tok.str)
    && |x.tok.str| <= x.ptr && x.tok.str == src[x.ptr - |x.tok.str|..x.ptr]
    && (Buffered(x.tok.tag) && x.ptr < |src| ==> !ClassOf(x.tok.tag).Has(src[x.ptr]))
    && (x.tok.tag == EOF ==> x.ptr == |src| && x.tok.loc == x.loc)
    && (x.tok.tag != EOF ==> p < x.ptr)
    && (x.tok.tag == NEW_LINE ==> x.tok.loc.column != 0)
  }

  /** Every token `Scan` produces is well scanned. */
  lemma {:induction false} ScanWellScanned(src: string, p: nat, l: Location) returns (x: Lexed)
    requires p <= |src| && Scan(src, p, l).Ok?
    ensures Scan(src, p, l) == Ok(x) && WellScanned(src, p, x)
    decreases |src| - p, 1
  {
    x := Scan(src, p, l).value;
    if p < |src| && (IsAlphaMark(src[p]) || IsDigit(src[p]) || IsSigil(src[p])) {
      var e, t := RunStart(src, p, l);
      x := FinishWellScanned(src, p, l, e, t);
    } else if p < |src| && (src[p] == ';' || (src[p] == '\n' && l.column == 0) || src[p] == ' ' || src[p] == '\r' || src[p] == '\t') {
      var q, l' := Skipped(src, p, l);
      x := ScanWellScanned(src, q, l');
    }
  }

  /** At a letter, mark, digit or sign, `Scan` finishes a buffered run. */
  lemma RunStart(src: string, p: nat, l: Location) returns (e: nat, t: TokenTag)
    requires p < |src| && (IsAlphaMark(src[p]) || IsDigit(src[p]) || IsSigil(src[p])) && Scan(src, p, l).Ok?
    ensures p < e <= |src| && Buffered(t) && Matches(t, src[p..e])
    ensures e < |src| ==> !ClassOf(t).Has(src[e])
    ensures Scan(src, p, l) == Finish(src, p, l, e, t)
  {
    var c := src[p];
    if IsAlphaMark(c) {
      e, t := RunEnd(src, p, Word), RESERVED;
      assert AllIn(src[p..e][1..], Word);
    } else if IsDigit(c) {
      e, t := RunEnd(src, p, Number), DIGITS;
      assert AllIn(src[p..e], Number);
    } else {
      ScanSigil(src, p, l);
      t := SigilTag(c);
      e := RunEnd(src, p + SigilWidth(c), ClassOf(t));
      SigilMatches(src, p, e);
    }
  }

  /** A signed token's text has its tag's shape. */
  lemma SigilMatches(src: string, p: nat, e: nat)
    requires p < |src| && IsSigil(src[p]) && ClassOf(SigilTag(src[p])).Has(PeekAt(src, p + 1))
    requires p + SigilWidth(src[p]) <= |src| && e == RunEnd(src, p + SigilWidth(src[p]), ClassOf(SigilTag(src[p])))
    ensures p < e && Matches(SigilTag(src[p]), src[p..e])
  {
    var w, cls := src[p..e], ClassOf(SigilTag(src[p]));
    assert w[0] == src[p] && |w| >= 2;
    assert AllIn(w[1..], cls);
  }

  /** A blank, a comment or an empty line: `Scan` goes on further along. */
  lemma Skipped(src: string, p: nat, l: Location) returns (q: nat, l': Location)
    requires p < |src| && Scan(src, p, l).Ok?
    requires src[p] == ';' || (src[p] == '\n' && l.column == 0) || src[p] == ' ' || src[p] == '\r' || src[p] == '\t'
    ensures p < q <= |src| && Scan(src, p, l) == Scan(src, q, l')
  {
    if src[p] == ';' {
      q, l' := LineEnd(src, p + 1).value + 1, l.NewLine();
    } else if src[p] == '\n' {
      q, l' := p + 1, l.NewLine();
    } else {
      q, l' := p + 1, l.Shift();
    }
  }

  /** The same for a buffered token whose run has ended at `e`. */
  lemma {:induction false} FinishWellScanned(src: string, s: nat, l: Location, e: nat, t: TokenTag) returns (x: Lexed)
    requires s < e <= |src| && Buffered(t) && Matches(t, src[s..e])
    requires e < |src| ==> !ClassOf(t).Has(src[e])
    requires Finish(src, s, l, e, t).Ok?
    ensures Finish(src, s, l, e, t) == Ok(x) && WellScanned(src, s, x)
    decreases |src| - s, 0
  {
    var w := src[s..e];
    if t == RESERVED && e < |src| && w == "target" {
      var n := LineEnd(src, e).value;
      x := ScanWellScanned(src, n + 1, l.NewLine());
    } else if t == RESERVED && e < |src| && w == "attributes" {
      x := Lexed(WithTag(Shifted(l, |w|), EOF), |src|, Shifted(l, |w|));
    } else {
      x := FinishPlain(src, s, l, e, t);
    }
  }

  /** What `Finish` does with the two words that make the lexer skip code. */
  lemma FinishSkips(src: string, s: nat, l: Location, e: nat)
    requires s <= e < |src| && (src[s..e] == "target" || src[s..e] == "attributes")
    ensures src[s..e] == "target" ==>
              Finish(src, s, l, e, RESERVED) ==
                (match LineEnd(src, e)
                 case None => Err(IndexOutOfBounds)
                 case Some(n) => Scan(src, n + 1, l.NewLine()))
    ensures src[s..e] == "attributes" ==>
      Finish(src, s, l, e, RESERVED) == Ok(Lexed(WithTag(Shifted(l, e - s), EOF), |src|, Shifted(l, e - s)))
  {
  }

  /** A buffered token that is neither `target` nor `attributes` is the run itself. */
  lemma FinishPlain(src: string, s: nat, l: Location, e: nat, t: TokenTag) returns (x: Lexed)
    requires s < e <= |src| && Buffered(t) && Matches(t, src[s..e])
    requires e < |src| ==> !ClassOf(t).Has(src[e])
    requires !(t == RESERVED && e < |src| && (src[s..e] == "target" || src[s..e] == "attributes"))
    ensures Finish(src, s, l, e, t) == Ok(x) && WellScanned(src, s, x)
  {
    x := Lexed(Token(l, t, src[s..e]), e, Shifted(l, e - s));
    assert x.ptr - |x.tok.str| == s;
  }

  // ---------------------------------------------------------------------
  // Facts the state machine relies on.

  /** A run that is known to stop at `j` ends there. */
  lemma RunEndAt(src: string, i: nat, j: nat, cls: CharClass)
    requires i <= j <= |src|
    requires forall k :: i <= k < j ==> cls.Has(src[k])
    requires j == |src| || !cls.Has(src[j])
    ensures RunEnd(src, i, cls) == j
  {
  }

  /** Going back `n` columns from `n` columns further returns to the start. */
  lemma ShiftBack(l: Location, n: int)
    ensures Location(Shifted(l, n).line, Wrap(Shifted(l, n).column as int - n)) == l
  {
    WrapShift(l.column as int + n, -n);
  }

  /** One more column after `n` columns is `n + 1` columns. */
  lemma ShiftedStep(l: Location, n: int)
    ensures Shifted(l, n).Shift() == Shifted(l, n + 1)
    ensures Shifted(l, 0) == l
  {
    WrapShift(l.column as int + n, 1);
  }

  /** `Scan` at a sign: the signed token, or the failure for what follows the sign. */
  lemma ScanSigil(src: string, p: nat, l: Location)
    requires p < |src| && IsSigil(src[p])
    ensures ClassOf(SigilTag(src[p])).Has(PeekAt(src, p + 1)) ==> p + SigilWidth(src[p]) <= |src|
    ensures ClassOf(SigilTag(src[p])).Has(PeekAt(src, p + 1)) ==>
      Scan(src, p, l) == Finish(src, p, l, RunEnd(src, p + SigilWidth(src[p]), ClassOf(SigilTag(src[p]))), SigilTag(src[p]))
    ensures !ClassOf(SigilTag(src[p])).Has(PeekAt(src, p + 1)) ==>
      Scan(src, p, l) == Err(ExpectError(l.Shift(), ClassText(ClassOf(SigilTag(src[p]))), PeekAt(src, p + 1)))
  {
  }

  // ---------------------------------------------------------------------
  // The lexer object.

  class Lexer {
    /** The whole input, as the constructor reads it from the file. */
    const src: string
    var ptr: nat
    var loc: Location
    /** The text of the token under construction. */
    var buf: string
    /** The kind of the token under construction, once known. */
    var tag: Option<TokenTag>

    constructor (text: string)
      ensures src == text && ptr == 0 && loc == Start() && buf == [] && tag == None
    {
      src, ptr, loc, buf, tag := text, 0, Start(), [], None;
    }

    /** `read`: the current character; the pointer moves on even when there is none. */
    method Read() returns (r: Result<char>)
      modifies this
      ensures ptr == old(ptr) + 1 && buf == old(buf) && tag == old(tag)
      ensures old(ptr) < |src| ==> r == Ok(src[old(ptr)]) && loc == Advance(old(loc), src[old(ptr)])
      ensures old(ptr) >= |src| ==> r == Err(IndexOutOfBounds) && loc == old(loc)
    {
      var p := ptr;
      ptr := ptr + 1;
      if p >= |src| {
        return Err(IndexOutOfBounds);
      }
      var c := src[p];
      loc := Advance(loc, c);
      r := Ok(c);
    }

    /** `shift`: read one character into the buffer. */
    method Shift()
      requires ptr < |src|
      modifies this
      ensures ptr == old(ptr) + 1 && loc == Advance(old(loc), src[old(ptr)])
      ensures buf == old(buf) + [src[old(ptr)]] && tag == old(tag)
    {
      var c := Read();
      buf := buf + [c.value];
    }

    /** `skip`: read one character and drop it. */
    method Skip()
      requires ptr < |src|
      modifies this
      ensures ptr == old(ptr) + 1 && loc == Advance(old(loc), src[old(ptr)])
      ensures buf == old(buf) && tag == old(tag)
    {
      var _ := Read();
    }

    /** `clear`: forget the token under construction. */
    method Clear()
      modifies this
      ensures buf == [] && tag == None && ptr == old(ptr) && loc == old(loc)
    {
      buf, tag := [], None;
    }

    /** `createFromBuffer`: the buffered text as a token, placed where its first character was. */
    method CreateFromBuffer() returns (t: Tok)
      requires tag.Some?
      modifies this
      ensures buf == [] && tag == old(tag) && ptr == old(ptr) && loc == old(loc)
      ensures t == Token(Location(loc.line, Wrap(loc.column as int - |old(buf)|)), tag.value, old(buf))
    {
      t := Token(Location(loc.line, Wrap(loc.column as int - |buf|)), tag.value, buf);
      buf := [];
    }

    /** `createFromTag`: a textless token at the current location, skipping its character. */
    method CreateFromTag(t: TokenTag) returns (tok: Tok)
      requires ptr < |src|
      modifies this
      ensures tok == WithTag(old(loc), t)
      ensures ptr == old(ptr) + 1 && loc == Advance(old(loc), src[old(ptr)])
      ensures buf == old(buf) && tag == old(tag)
    {
      tok := WithTag(loc, t);
      Skip();
    }

    /** `while (read() != '\n') continue`: skip through the next line break. */
    method SkipLine() returns (o: Outcome)
      requires ptr <= |src|
      modifies this
      ensures o.Pass? <==> LineEnd(src, old(ptr)).Some?
      ensures o.Fail? ==> o.error == IndexOutOfBounds
      ensures o.Pass? ==> ptr == LineEnd(src, old(ptr)).value + 1 && loc == old(loc).NewLine()
      ensures buf == old(buf) && tag == old(tag)
    {
      ghost var p0 := ptr;
      while true
        invariant p0 <= ptr <= |src| && buf == old(buf) && tag == old(tag)
        invariant forall k :: p0 <= k < ptr ==> src[k] != '\n'
        invariant loc == Shifted(old(loc), ptr - p0)
        decreases |src| - ptr
      {
        var c := Read();
        if c.Err? {
          return Fail(c.error);
        }
        if c.value == '\n' {
          assert LineEnd(src, p0) == Some(ptr - 1);
          return Pass;
        }
        ShiftedStep(old(loc), ptr - 1 - p0);
      }
    }

    /** The loop state while a token is buffered: where it began and what it will become. */
    ghost predicate Pending(t: TokenTag, s: nat, sl: Location, from: nat, goal: Result<Lexed>)
      reads this
    {
      Buffered(t) && s < |src| && s <= from <= ptr <= |src| && buf == src[s..ptr]
      && (forall k :: from <= k < ptr ==> ClassOf(t).Has(src[k]))
      && loc == Shifted(sl, ptr - s)
      && goal == Finish(src, s, sl, RunEnd(src, from, ClassOf(t)), t)
    }

    /**
     * What one pass through the loop of `nextToken` leaves behind, having
     * started at pointer `p0`: either the call's result (`Some`), or the
     * loop state for the next pass with the same expected outcome `goal`.
     */
    ghost predicate Stepped(res: Option<Result<Tok>>, goal: Result<Lexed>, p0: nat, s: nat, sl: Location, from: nat)
      reads this
    {
      (res.Some? ==> res.value == TokenOf(goal) && (res.value.Ok? ==> ptr == goal.value.ptr && loc == goal.value.loc))
      && (res.None? && tag.None? ==> p0 < ptr && buf == [] && goal == Scan(src, ptr, loc))
      && (res.None? && tag.Some? ==> p0 <= ptr && Pending(tag.value, s, sl, from, goal))
    }

    /** `nextToken`: the token `Scan` finds from the current pointer and location. */
    method NextToken() returns (r: Result<Tok>)
      modifies this
      ensures r == TokenOf(Scan(src, old(ptr), old(loc)))
      ensures r.Ok? ==> ptr == Scan(src, old(ptr), old(loc)).value.ptr
      ensures r.Ok? ==> loc == Scan(src, old(ptr), old(loc)).value.loc
    {
      buf, tag := [], None;
      ghost var goal := Scan(src, ptr, loc);
      ghost var s: nat, sl: Location, from: nat := ptr, loc, ptr;
      while ptr < |src|
        invariant tag.None? ==> buf == [] && goal == Scan(src, ptr, loc)
        invariant tag.Some? ==> Pending(tag.value, s, sl, from, goal)
        decreases |src| - ptr, if tag.None? then 1 else 0
      {
        var c := PeekAt(src, ptr);
        if tag.None? {
          var res;
          res, s, sl, from := Begin(goal);
          if res.Some? {
            return res.value;
          }
        } else if ClassOf(tag.value).Has(c) {
          Extend(goal, s, sl, from);
        } else {
          var res := Complete(goal, s, sl, from);
          if res.Some? {
            return res.value;
          }
        }
      }
      r := Flush(goal, s, sl, from);
    }

    /** The input is used up: the buffered token if there is one, else end of file. */
    method Flush(ghost goal: Result<Lexed>, ghost s: nat, ghost sl: Location, ghost from: nat) returns (r: Result<Tok>)
      requires ptr >= |src|
      requires tag.None? ==> buf == [] && goal == Scan(src, ptr, loc)
      requires tag.Some? ==> Pending(tag.value, s, sl, from, goal)
      modifies this
      ensures r == TokenOf(goal)
      ensures r.Ok? ==> ptr == goal.value.ptr && loc == goal.value.loc
    {
      if buf == [] {
        return Ok(WithTag(loc, EOF));
      }
      RunEndAt(src, from, ptr, ClassOf(tag.value));
      ShiftBack(sl, ptr - s);
      var tok := CreateFromBuffer();
      r := Ok(tok);
    }

    /** The buffered token grows by the current character, which belongs to its class. */
    method Extend(ghost goal: Result<Lexed>, ghost s: nat, ghost sl: Location, ghost from: nat)
      requires tag.Some? && Pending(tag.value, s, sl, from, goal)
      requires ptr < |src| && ClassOf(tag.value).Has(src[ptr])
      modifies this
      ensures tag == old(tag) && ptr == old(ptr) + 1 && Pending(tag.value, s, sl, from, goal)
    {
      ghost var b, p := buf, ptr;
      Shift();
      ShiftedStep(sl, p - s);
      assert buf == b + [src[p]] == src[s..ptr];
    }

    /**
     * The loop body of `nextToken` with no token begun: start one, return a
     * one-character token, skip a blank, a comment or an empty line, or fail.
     */
    method Begin(ghost goal: Result<Lexed>) returns (res: Option<Result<Tok>>, ghost s: nat, ghost sl: Location, ghost from: nat)
      requires tag.None? && buf == [] && ptr < |src| && goal == Scan(src, ptr, loc)
      modifies this
      ensures Stepped(res, goal, old(ptr), s, sl, from)
    {
      var c := src[ptr];
      s, sl, from := ptr, loc, ptr;
      if IsAlphaMark(c) || IsDigit(c) {
        res := StartRun(goal);
      } else if IsSigil(c) {
        ScanSigil(src, ptr, loc);
        res, from := Sigil(goal);
      } else if c == ';' {
        res := Comment(goal);
      } else {
        res := Single(goal);
      }
    }

    /** A letter, mark or digit begins a word or a number; nothing is read yet. */
    method StartRun(ghost goal: Result<Lexed>) returns (res: Option<Result<Tok>>)
      requires tag.None? && buf == [] && ptr < |src| && goal == Scan(src, ptr, loc)
      requires IsAlphaMark(src[ptr]) || IsDigit(src[ptr])
      modifies this
      ensures Stepped(res, goal, old(ptr), old(ptr), old(loc), old(ptr))
    {
      tag := Some(if IsAlphaMark(src[ptr]) then RESERVED else DIGITS);
      ShiftedStep(loc, 0);
      res := None;
    }

    /**
     * A token that starts with `@`, `%`, `#` or `-`: the sign and, except
     * after `-`, the character after it go into the buffer; that character
     * must belong to the token's class.
     */
    method Sigil(ghost goal: Result<Lexed>) returns (res: Option<Result<Tok>>, ghost from: nat)
      requires tag.None? && buf == [] && ptr < |src| && IsSigil(src[ptr])
      requires ClassOf(SigilTag(src[ptr])).Has(PeekAt(src, ptr + 1)) ==> ptr + SigilWidth(src[ptr]) <= |src|
      requires ClassOf(SigilTag(src[ptr])).Has(PeekAt(src, ptr + 1)) ==>
        goal == Finish(src, ptr, loc, RunEnd(src, ptr + SigilWidth(src[ptr]), ClassOf(SigilTag(src[ptr]))), SigilTag(src[ptr]))
      requires !ClassOf(SigilTag(src[ptr])).Has(PeekAt(src, ptr + 1)) ==>
        goal == Err(ExpectError(loc.Shift(), ClassText(ClassOf(SigilTag(src[ptr]))), PeekAt(src, ptr + 1)))
      modifies this
      ensures res.Some? ==> res.value == TokenOf(goal) && res.value.Err?
      ensures res.None? ==> tag.Some? && old(ptr) < ptr && Pending(tag.value, old(ptr), old(loc), from, goal)
    {
      ghost var l := loc;
      var c := src[ptr];
      var t := SigilTag(c);
      Shift();
      if !ClassOf(t).Has(PeekAt(src, ptr)) {
        return Some(Err(ExpectError(loc, ClassText(ClassOf(t)), PeekAt(src, ptr)))), ptr;
      }
      ShiftedStep(l, 0);
      if c != '-' {
        Shift();
        ShiftedStep(l, 1);
      }
      tag := Some(t);
      return None, ptr;
    }

    /** `;` starts a comment, which runs through the end of its line. */
    method Comment(ghost goal: Result<Lexed>) returns (res: Option<Result<Tok>>)
      requires tag.None? && buf == [] && ptr < |src| && goal == Scan(src, ptr, loc)
      requires src[ptr] == ';'
      modifies this
      ensures tag.None? && Stepped(res, goal, old(ptr), 0, loc, 0)
    {
      Skip();
      var o := SkipLine();
      if o.Fail? {
        return Some(Err(o.error));
      }
      return None;
    }

    /** Punctuation, a line break, a blank, or a character no token starts with. */
    method Single(ghost goal: Result<Lexed>) returns (res: Option<Result<Tok>>)
      requires tag.None? && buf == [] && ptr < |src| && goal == Scan(src, ptr, loc)
      requires !IsAlphaMark(src[ptr]) && !IsDigit(src[ptr]) && !IsSigil(src[ptr]) && src[ptr] != ';'
      modifies this
      ensures tag.None? && Stepped(res, goal, old(ptr), 0, loc, 0)
    {
      var c := src[ptr];
      if Punctuation(c).Some? {
        var tok := CreateFromTag(Punctuation(c).value);
        return Some(Ok(tok));
      } else if c == '\n' {
        var tok := CreateFromTag(NEW_LINE);
        if tok.loc.column == 0 {
          Clear();
          return None;
        }
        return Some(Ok(tok));
      } else if c == ' ' || c == '\r' || c == '\t' {
        Skip();
        return None;
      }
      return Some(Err(ParseFailure(loc.line as int, loc.column as int, "Unknown character: " + [c])));
    }

    /**
     * The loop body of `nextToken` once the buffered token has ended at a
     * character outside its class: return it, or skip the code a
     * `target` or `attributes` word introduces.
     */
    method Complete(ghost goal: Result<Lexed>, ghost s: nat, ghost sl: Location, ghost from: nat) returns (res: Option<Result<Tok>>)
      requires tag.Some? && Pending(tag.value, s, sl, from, goal)
      requires ptr < |src| && !ClassOf(tag.value).Has(src[ptr])
      modifies this
      ensures tag.None? || res.Some?
      ensures Stepped(res, goal, old(ptr), s, sl, from)
    {
      RunEndAt(src, from, ptr, ClassOf(tag.value));
      ShiftBack(sl, ptr - s);
      var tok := CreateFromBuffer();
      if tag.value == RESERVED && (tok.str == "target" || tok.str == "attributes") {
        res := SkipCode(goal, tok.str, sl);
      } else {
        res := Some(Ok(tok));
      }
    }

    /** After `target` the rest of the line is skipped; after `attributes`, the rest of the input. */
    method SkipCode(ghost goal: Result<Lexed>, word: string, ghost sl: Location) returns (res: Option<Result<Tok>>)
      requires ptr < |src| && loc.line == sl.line
      requires word == "target" || word == "attributes"
      requires |word| <= ptr && goal == Finish(src, ptr - |word|, sl, ptr, RESERVED) && src[ptr - |word|..ptr] == word
      requires word == "attributes" ==> loc == Shifted(sl, |word|)
      modifies this
      ensures res.None? ==> tag.None? && buf == [] && old(ptr) < ptr && goal == Scan(src, ptr, loc)
      ensures res.Some? ==> res.value == TokenOf(goal) && res.value.Err?
    {
      FinishSkips(src, ptr - |word|, sl, ptr);
      if word == "target" {
        res := SkipTarget(goal, sl);
      } else {
        Clear();
        ptr := |src|;
        res := None;
      }
    }

    /** After `target`: the rest of the line, line break included. */
    method SkipTarget(ghost goal: Result<Lexed>, ghost sl: Location) returns (res: Option<Result<Tok>>)
      requires ptr < |src| && loc.line == sl.line
      requires goal == match LineEnd(src, ptr)
                       case None => Err(IndexOutOfBounds)
                       case Some(n) => Scan(src, n + 1, sl.NewLine())
      modifies this
      ensures res.None? ==> tag.None? && buf == [] && old(ptr) < ptr && goal == Scan(src, ptr, loc)
      ensures res.Some? ==> res.value == TokenOf(goal) && res.value.Err?
    {
      var o := SkipLine();
      if o.Fail? {
        return Some(Err(o.error));
      }
      Clear();
      return None;
    }
  }
}
