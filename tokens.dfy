/**
 * Tokens of the IR reader: a location, a tag and the matched text.  Two
 * tokens are equal when tag and text agree, whatever their locations, and
 * the hash code is computed from the same two parts.
 *
 * The token is generic over its location so that the front end's lexer,
 * which has its own `Location`, produces the same kind of token.
 */
module Tokens {
  import opened Wrappers
  import opened Jvm
  import LlvmLocations

  datatype TokenTag =
    | RESERVED     // [A-Za-z._][A-Za-z0-9._]*
    | GLOBAL_ID    // @[A-Za-z0-9._]+
    | LOCAL_ID     // %[A-Za-z0-9._]+
    | DIGITS       // -?[0-9]+
    | GROUP_NUM    // #[0-9]+
    | EQUAL
    | COMMA
    | COLON
    | ASTERISK
    | LEFT_ROUND
    | RIGHT_ROUND
    | LEFT_CURLY
    | RIGHT_CURLY
    | NEW_LINE     // a line break that ends a non-empty line (front-end lexer only)
    | EOF

  /** The enum constant's name, as `toString` prints it. */
  function TagName(t: TokenTag): (s: string)
    ensures |s| > 0
  {
    match t
    case RESERVED => "RESERVED"
    case GLOBAL_ID => "GLOBAL_ID"
    case LOCAL_ID => "LOCAL_ID"
    case DIGITS => "DIGITS"
    case GROUP_NUM => "GROUP_NUM"
    case EQUAL => "EQUAL"
    case COMMA => "COMMA"
    case COLON => "COLON"
    case ASTERISK => "ASTERISK"
    case LEFT_ROUND => "LEFT_ROUND"
    case RIGHT_ROUND => "RIGHT_ROUND"
    case LEFT_CURLY => "LEFT_CURLY"
    case RIGHT_CURLY => "RIGHT_CURLY"
    case NEW_LINE => "NEW_LINE"
    case EOF => "EOF"
  }

  /** No tag name holds the characters that delimit the fields of a printed token. */
  lemma TagNameText(t: TokenTag)
    ensures forall i :: 0 <= i < |TagName(t)| ==> TagName(t)[i] != ',' && TagName(t)[i] != '}'
  {
  }

  lemma TagNameInjective(a: TokenTag, b: TokenTag)
    ensures TagName(a) == TagName(b) <==> a == b
  {
  }

  datatype Token<L> = Token(loc: L, tag: TokenTag, str: string) {
    /** `isOperand`: local identifiers and integer literals. */
    predicate IsOperand()
    {
      tag == LOCAL_ID || tag == DIGITS
    }

    /**
     * `strNoPrefix`: the text without its `@`/`%` sigil for identifiers,
     * the whole text otherwise.  `substring(1)` of an empty text throws.
     */
    function StrNoPrefix(): (r: Result<string>)
      ensures (tag == GLOBAL_ID || tag == LOCAL_ID) && str == [] <==> r.Err?
      ensures r.Err? ==> r.error == IndexOutOfBounds
      ensures r.Ok? && (tag == GLOBAL_ID || tag == LOCAL_ID) ==> str == [str[0]] + r.value
      ensures r.Ok? && !(tag == GLOBAL_ID || tag == LOCAL_ID) ==> r.value == str
    {
      if tag == GLOBAL_ID || tag == LOCAL_ID then
        if str == [] then Err(IndexOutOfBounds) else Ok(str[1..])
      else Ok(str)
    }

    /** `equals`: same tag and same text; the location is ignored. */
    predicate Equals(o: Token<L>): (eq: bool)
      ensures eq <==> this.(loc := o.loc) == o
    {
      tag == o.tag && str == o.str
    }

    /** `hashCode`: `31 * tag.hashCode() + str.hashCode()` in 32-bit arithmetic. */
    function HashCode(tagHash: TokenTag -> int32): (h: int32)
      ensures (h as int - (31 * tagHash(tag) as int + StringHash(str) as int)) % 0x1_0000_0000 == 0
    {
      Wrap(31 * tagHash(tag) as int + StringHash(str) as int)
    }
  }

  /** `Token(loc, tag)`: a token with empty text. */
  function WithTag<L>(loc: L, tag: TokenTag): (t: Token<L>)
    ensures t.loc == loc && t.tag == tag && t.str == []
  {
    Token(loc, tag, "")
  }

  /** `Token(tag, str)`: a token at the start location, used as a pattern to compare against. */
  function Pattern(tag: TokenTag, str: string): (t: Token<LlvmLocations.Location>)
    ensures t.loc == LlvmLocations.Start() && t.tag == tag && t.str == str
  {
    Token(LlvmLocations.Start(), tag, str)
  }

  /** `toString`: `Token{loc, TAG, text}`, the location's own text first. */
  function ToString(t: Token<LlvmLocations.Location>): (r: string)
    ensures var l := t.loc.ToString();
            |r| == 6 + |l| + 2 + |TagName(t.tag)| + 2 + |t.str| + 1
            && r[..6] == "Token{" && r[6..6 + |l|] == l && r[|r| - 1] == '}'
  {
    "Token{" + (t.loc.ToString() + (", " + (TagName(t.tag) + (", " + (t.str + "}")))))
  }

  /** Equality is an equivalence that ignores locations. */
  lemma EqualsEquivalence<L>(a: Token<L>, b: Token<L>, c: Token<L>)
    ensures a.Equals(a)
    ensures a.Equals(b) ==> b.Equals(a)
    ensures a.Equals(b) && b.Equals(c) ==> a.Equals(c)
    ensures a.Equals(Token(c.loc, a.tag, a.str))
  {
  }

  /** Equal tokens have equal hash codes, for any hash of the tags. */
  lemma HashConsistent<L>(a: Token<L>, b: Token<L>, tagHash: TokenTag -> int32)
    requires a.Equals(b)
    ensures a.HashCode(tagHash) == b.HashCode(tagHash)
  {
  }

  /** A pattern token matches exactly the tokens with its tag and text. */
  lemma PatternMatches(t: Token<LlvmLocations.Location>, tag: TokenTag, str: string)
    ensures t.Equals(Pattern(tag, str)) <==> t.tag == tag && t.str == str
  {
  }

  /** Stripping the sigil and putting it back gives the identifier's text. */
  lemma StrNoPrefixRoundTrip<L>(t: Token<L>)
    requires t.tag == GLOBAL_ID || t.tag == LOCAL_ID
    requires |t.str| > 0
    ensures t.StrNoPrefix().Ok?
    ensures [t.str[0]] + t.StrNoPrefix().value == t.str
    ensures |t.StrNoPrefix().value| == |t.str| - 1
  {
  }

  // ---------------------------------------------------------------------
  // The printed form determines the token.

  /**
   * A text made of a prefix `p` that ends at its first occurrence of `d`,
   * followed by anything, splits back into the same two parts.
   */
  lemma SplitAtFirst(d: char, p1: string, r1: string, p2: string, r2: string)
    requires |p1| > 0 && p1[|p1| - 1] == d && forall k :: 0 <= k < |p1| - 1 ==> p1[k] != d
    requires |p2| > 0 && p2[|p2| - 1] == d && forall k :: 0 <= k < |p2| - 1 ==> p2[k] != d
    requires p1 + r1 == p2 + r2
    ensures p1 == p2 && r1 == r2
  {
    var s := p1 + r1;
    var m := if |p1| < |p2| then |p1| else |p2|;
    assert p1[m - 1] == s[m - 1] == p2[m - 1];
    assert |p1| == |p2|;
    assert p1 == s[..|p1|] && p2 == s[..|p2|];
    assert r1 == s[|p1|..] && r2 == s[|p2|..];
  }

  /** Removing a known prefix. */
  lemma Unprefix(p: string, x: string, y: string)
    requires p + x == p + y
    ensures x == y
  {
    assert x == (p + x)[|p|..];
  }

  /** Distinct tokens print differently: the text fixes location, tag and text. */
  lemma ToStringInjective(a: Token<LlvmLocations.Location>, b: Token<LlvmLocations.Location>)
    ensures ToString(a) == ToString(b) <==> a == b
  {
    if ToString(a) == ToString(b) {
      var la, lb := a.loc.ToString(), b.loc.ToString();
      var ta, tb := ", " + (a.str + "}"), ", " + (b.str + "}");
      Unprefix("Token{", la + (", " + (TagName(a.tag) + ta)), lb + (", " + (TagName(b.tag) + tb)));
      LlvmLocations.ToStringInjective(a.loc, b.loc);
      SplitAtFirst('}', la, ", " + (TagName(a.tag) + ta), lb, ", " + (TagName(b.tag) + tb));
      Unprefix(", ", TagName(a.tag) + ta, TagName(b.tag) + tb);
      TagSplit(a.tag, ta, b.tag, tb);
      Unprefix(", ", a.str + "}", b.str + "}");
      assert a.str == (a.str + "}")[..|a.str|];
    }
  }

  /** A tag name followed by `, ...` determines the tag and the rest. */
  lemma TagSplit(t1: TokenTag, r1: string, t2: TokenTag, r2: string)
    requires TagName(t1) + r1 == TagName(t2) + r2
    requires |r1| > 0 && r1[0] == ',' && |r2| > 0 && r2[0] == ','
    ensures t1 == t2 && r1 == r2
  {
    TagNameText(t1);
    TagNameText(t2);
    var n1, n2 := TagName(t1) + [','], TagName(t2) + [','];
    assert n1 + r1[1..] == TagName(t1) + r1;
    assert n2 + r2[1..] == TagName(t2) + r2;
    SplitAtFirst(',', n1, r1[1..], n2, r2[1..]);
    assert TagName(t1) == n1[..|n1| - 1] && TagName(t2) == n2[..|n2| - 1];
    TagNameInjective(t1, t2);
    assert r1 == [','] + r1[1..] && r2 == [','] + r2[1..];
  }
}
