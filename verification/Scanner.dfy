/** The scanner: from the characters of a program to its tokens. */
module Scanner {
  import opened Words
  import opened Source
  import opened Syntax

  const SPACE := 32
  const QUOTE := 39
  const TC_UNKNOWN := 1
  const TC_INTEGER := 2
  const TC_IDENTIFIER := 3

  predicate IsDigit(c: u8) { 48 <= c <= 57 }

  predicate IsLetter(c: u8) { 65 <= c <= 90 || c == 95 || 97 <= c <= 122 }

  /** The type of a character: 32 for blanks, 2 for digits, 3 for letters, 10 to 16 for the first characters of
      operators that may have two, the token for other single characters, and 1 for the rest. */
  function CharType(c: u8): nat {
    if IsDigit(c) then TC_INTEGER
    else if IsLetter(c) then TC_IDENTIFIER
    else match c
      case 9 => 32 case 10 => 32 case 32 => 32
      case 33 => 10 case 38 => 11 case 60 => 12 case 61 => 13 case 62 => 14 case 124 => 15 case 45 => 16
      case 39 => 39 case 40 => 40 case 41 => 41 case 42 => 6 case 43 => 4 case 44 => 44 case 46 => 46 case 47 => 7
      case 58 => 58 case 59 => 59 case 91 => 91 case 93 => 93 case 123 => 123 case 125 => 125
      case _ => TC_UNKNOWN
  }

  const OPERATORS: seq<nat> := [
    1, 1, 16, 1, 8, 18, 1, 1, 12, 10, 15, 1, 61, 13, 13, 1, 14, 11, 17, 11, 9, 19, 1, 1, 5, 1, 1, 20
  ]

  // ----- keywords -----

  /** The keywords, in the order of their table. */
  const KEYWORDS: seq<seq<u8>> := [
    [97, 115], [98, 114, 101, 97, 107], [99, 111, 110, 115, 116], [101, 108, 115, 101], [102, 110], [105, 102],
      [108, 101, 116],
    [108, 111, 111, 112], [110, 117, 108, 108], [114, 101, 116, 117, 114, 110], [115, 105, 122, 101, 111, 102],
    [115, 116, 97, 116, 105, 99], [115, 116, 114, 117, 99, 116], [117, 54, 52], [119, 104, 105, 108, 101]
  ]

  const KEYWORD_TOKENS: seq<nat> := [138, 128, 129, 130, 131, 132, 133, 134, 139, 135, 140, 136, 141, 142, 137]

  /** Where the keyword with a hash code is in the table: its place plus 1, or 0. */
  function Bucket(h: nat): nat
    ensures Bucket(h) <= |KEYWORDS|
  {
    match h
    case 7 => 9 case 8 => 5 case 21 => 13 case 24 => 11 case 27 => 7 case 29 => 6 case 35 => 3 case 36 => 8
    case 46 => 12 case 48 => 10 case 49 => 15 case 50 => 1 case 51 => 14 case 57 => 4 case 63 => 2
    case _ => 0
  }

  /** The hash code of a word, in 64 bits. */
  function Hash(word: seq<u8>): u64 { if word == [] then 0 else Wrap(31 * Hash(word[..|word| - 1]) + word[|word| - 1]) }

  /** tc_get_keyword: the word is looked up in the bucket of its hash code only. */
  function KeywordToken(word: seq<u8>): nat {
    var k := Bucket(Hash(word) % 64);
    if k > 0 && KEYWORDS[k - 1] == word then KEYWORD_TOKENS[k - 1] else TC_IDENTIFIER
  }

  /** A word is found exactly if it is a keyword. */
  lemma KeywordTokenIs(word: seq<u8>)
    ensures forall i :: 0 <= i < |KEYWORDS| && KEYWORDS[i] == word ==> KeywordToken(word) == KEYWORD_TOKENS[i]
    ensures word !in KEYWORDS <==> KeywordToken(word) == TC_IDENTIFIER
  {
    hide KeywordToken;
    forall i: nat | i < |KEYWORDS|
      && KEYWORDS[i] == word ensures KeywordToken(word) == KEYWORD_TOKENS[i] != TC_IDENTIFIER {
      KeywordFound(i);
    }
    if word !in KEYWORDS { NotKeyword(word); }
  }

  lemma KeywordFound(i: nat)
    requires i < |KEYWORDS|
    ensures KeywordToken(KEYWORDS[i]) == KEYWORD_TOKENS[i] != TC_IDENTIFIER
  {
    hide Bucket, Hash;
    KeywordBucket(i);
  }

  lemma NotKeyword(word: seq<u8>)
    requires word !in KEYWORDS
    ensures KeywordToken(word) == TC_IDENTIFIER
  {
    hide Bucket, Hash;
    var k := Bucket(Hash(word) % 64);
    assert k > 0 ==> KEYWORDS[k - 1] in KEYWORDS;
  }

  lemma HashSnoc(word: seq<u8>, c: u8)
    ensures Hash(word + [c]) == Wrap(31 * Hash(word) + c)
  {
    assert (word + [c])[..|word|] == word;
  }

  lemma Hash2(a: u8, b: u8)
    ensures Hash([a]) == a && Hash([a, b]) == 31 * a + b
  {
    hide Hash;
    HashSnoc([], a);
    HashSnoc([a], b);
    NoHash();
    assert [] + [a] == [a] && [a] + [b] == [a, b];
  }

  lemma NoHash()
    ensures Hash([]) == 0
  {
  }

  lemma Hash3(a: u8, b: u8, c: u8)
    ensures Hash([a, b, c]) == 31 * (31 * a + b) + c
  {
    hide Hash;
    Hash2(a, b);
    HashSnoc([a, b], c);
    assert [a, b] + [c] == [a, b, c];
  }

  lemma Hash4(a: u8, b: u8, c: u8, d: u8)
    ensures Hash([a, b, c, d]) == 31 * (31 * (31 * a + b) + c) + d
  {
    hide Hash;
    Hash3(a, b, c);
    HashSnoc([a, b, c], d);
    assert [a, b, c] + [d] == [a, b, c, d];
  }

  lemma Hash5(a: u8, b: u8, c: u8, d: u8, e: u8)
    ensures Hash([a, b, c, d, e]) == 31 * (31 * (31 * (31 * a + b) + c) + d) + e
  {
    hide Hash;
    Hash4(a, b, c, d);
    HashSnoc([a, b, c, d], e);
    assert [a, b, c, d] + [e] == [a, b, c, d, e];
  }

  lemma Hash6(a: u8, b: u8, c: u8, d: u8, e: u8, f: u8)
    ensures Hash([a, b, c, d, e, f]) == 31 * (31 * (31 * (31 * (31 * a + b) + c) + d) + e) + f
  {
    hide Hash;
    Hash5(a, b, c, d, e);
    HashSnoc([a, b, c, d, e], f);
    assert [a, b, c, d, e] + [f] == [a, b, c, d, e, f];
  }

  /** Every keyword is in the bucket of its hash code. */
  lemma KeywordBucket(i: nat)
    requires i < |KEYWORDS|
    ensures Bucket(Hash(KEYWORDS[i]) % 64) == i + 1
  {
    if i < 8 { FirstBuckets(i); } else { LastBuckets(i); }
  }

  lemma FirstBuckets(i: nat)
    requires i < 8
    ensures Bucket(Hash(KEYWORDS[i]) % 64) == i + 1
  {
    hide Hash;
    match i
    case 0 => Hash2(97, 115);
    case 1 => Hash5(98, 114, 101, 97, 107);
    case 2 => Hash5(99, 111, 110, 115, 116);
    case 3 => Hash4(101, 108, 115, 101);
    case 4 => Hash2(102, 110);
    case 5 => Hash2(105, 102);
    case 6 => Hash3(108, 101, 116);
    case _ => Hash4(108, 111, 111, 112);
  }

  lemma LastBuckets(i: nat)
    requires 8 <= i < |KEYWORDS|
    ensures Bucket(Hash(KEYWORDS[i]) % 64) == i + 1
  {
    hide Hash;
    match i
    case 8 => Hash4(110, 117, 108, 108);
    case 9 => Hash6(114, 101, 116, 117, 114, 110);
    case 10 => Hash6(115, 105, 122, 101, 111, 102);
    case 11 => Hash6(115, 116, 97, 116, 105, 99);
    case 12 => Hash6(115, 116, 114, 117, 99, 116);
    case 13 => Hash3(117, 54, 52);
    case _ => Hash5(119, 104, 105, 108, 101);
  }

  // ----- the tokens of a text -----

  /** The type of the character at a place; at the end of the text it is 0. */
  function TypeAt(text: seq<u8>, p: nat): nat { if p < |text| then CharType(text[p]) else 0 }

  function CharAt(text: seq<u8>, p: nat): u8 { if p < |text| then text[p] else 0 }

  predicate InRun(kind: nat, word: bool) { kind == TC_INTEGER || (word && kind == TC_IDENTIFIER) }

  /** The end of the digits, or of the letters and digits, from a place on. */
  function RunEnd(text: seq<u8>, p: nat, word: bool): (e: nat)
    requires p <= |text|
    ensures p <= e <= |text|
    decreases |text| - p
  {
    if InRun(TypeAt(text, p), word) then RunEnd(text, p + 1, word) else p
  }

  /** The value of digits, modulo 2^64. */
  function Number(digits: seq<u8>): u64 {
    if digits == [] then 0
    else
      var last: int := digits[|digits| - 1];
      Wrap(10 * Number(digits[..|digits| - 1]) + last - 48)
  }

  /** A token and where the text goes on after it, or the code of a panic. */
  datatype Scan = Found(token: Token, next: nat) | Panic(code: nat)

  predicate CommentAt(text: seq<u8>, p: nat) { p + 1 < |text| && text[p + 1] == 42 }

  /** The last character of a comment, or a place past the end of the text. */
  function CommentEnd(text: seq<u8>, p: nat): (e: nat)
    ensures e > p
    decreases |text| - p
  {
    if p + 3 < |text| && !(text[p + 2] == 42 && text[p + 3] == 47) then CommentEnd(text, p + 1) else p + 3
  }

  /** Where the next token starts, after blanks and comments; a comment must end. */
  function Blank(text: seq<u8>, p: nat): (q: Option<nat>)
    requires p <= |text|
    ensures q.Some? ==> p <= q.value <= |text|
    decreases |text| - p
  {
    if TypeAt(text, p) == SPACE then Blank(text, p + 1)
    else if TypeAt(text, p) == TC_DIV && CommentAt(text, p) then
      if CommentEnd(text, p) >= |text| then None else Blank(text, CommentEnd(text, p) + 1)
    else Some(p)
  }

  function OperatorAt(text: seq<u8>, p: nat): Scan
    requires 10 <= TypeAt(text, p) < 17
  {
    var i := 4 * (TypeAt(text, p) - 10);
    if TypeAt(text, p + 1) == TypeAt(text, p) then Found(Tok(OPERATORS[i + 1]), p + 2)
    else if CharAt(text, p + 1) == 61 then Found(Tok(OPERATORS[i + 2]), p + 2)
    else if CharAt(text, p + 1) == 62 then Found(Tok(OPERATORS[i + 3]), p + 2)
    else Found(Tok(OPERATORS[i]), p + 1)
  }

  function QuotedAt(text: seq<u8>, p: nat): Scan {
    var c := CharAt(text, p + 1);
    if c < 32 || c >= 127 then Panic(11)
    else if TypeAt(text, p + 2) != QUOTE then Panic(12)
    else Found(Int(c), p + 3)
  }

  function WordAt(text: seq<u8>, p: nat): Scan
    requires p <= |text|
  {
    var e := RunEnd(text, p, true);
    var k := KeywordToken(text[p..e]);
    Found(if k == TC_IDENTIFIER then Id(text[p..e]) else Tok(k), e)
  }

  function TokenAt(text: seq<u8>, p: nat): (r: Scan)
    requires p <= |text|
    ensures r.Found? ==> r.next <= |text| && (r.token != Tok(TC_END) ==> r.next > p)
  {
    var t := TypeAt(text, p);
    if t == TC_INTEGER then
      var e := RunEnd(text, p + 1, false);
      Found(Int(Number(text[p..e])), e)
    else if t == QUOTE then QuotedAt(text, p)
    else if t == TC_IDENTIFIER then
      assert RunEnd(text, p, true) == RunEnd(text, p + 1, true);
      WordAt(text, p)
    else if 10 <= t < 20 then OperatorAt(text, p)
    else Found(Tok(t), if t == 0 then p else p + 1)
  }

  function NextToken(text: seq<u8>, p: nat): (r: Scan)
    requires p <= |text|
    ensures r.Found? ==> r.next <= |text| && (r.token != Tok(TC_END) ==> r.next > p)
  {
    match Blank(text, p)
    case None => Panic(10)
    case Some(q) => TokenAt(text, q)
  }

  /** All the tokens of the text from a place on, if there is no panic. */
  function AllTokens(text: seq<u8>, p: nat): Option<seq<Token>>
    requires p <= |text|
    decreases |text| - p
  {
    match NextToken(text, p)
    case Panic(_) => None
    case Found(t, next) =>
      if t == Tok(TC_END) then Some([])
      else match AllTokens(text, next) case None => None case Some(ts) => Some([t] + ts)
  }

  // ----- the scanner -----

  class Scanner {
    const text: seq<u8>
    var src: nat
    var nextChar: u8
    var nextType: nat

    ghost predicate Valid()
      reads this
    {
      src <= |text| && nextChar == CharAt(text, src) && nextType == TypeAt(text, src)
    }

    /** The scanner at the start of a text, after a first character that is not part of it. */
    constructor (t: seq<u8>)
      ensures Valid() && text == t && src == 0
    {
      text, src := t, 0;
      nextChar := if |t| > 0 then t[0] else 0;
      nextType := if |t| > 0 then CharType(t[0]) else 0;
    }

    /** tc_read_char: it panics at the end of the text. */
    method ReadChar() returns (ok: bool)
      modifies this
      ensures ok <==> old(src) < |text|
      ensures ok ==> Valid() && src == old(src) + 1
    {
      if src >= |text| { return false; }
      src := src + 1;
      nextChar, nextType := 0, 0;
      if src < |text| {
        nextChar := text[src];
        nextType := CharType(nextChar);
      }
      ok := true;
    }

    /** tc_read_integer. */
    method ReadInteger() returns (token: Token)
      requires Valid() && nextType == TC_INTEGER
      modifies this
      ensures Valid() && Found(token, src) == TokenAt(text, old(src))
    {
      hide Number, CharType;
      ghost var start := src;
      var v: u64 := 0;
      NoDigits(text, start);
      while nextType == TC_INTEGER
        invariant Valid() && start <= src && RunEnd(text, src, false) == RunEnd(text, start, false)
        invariant v == Number(text[start..src])
        decreases |text| - src
      {
        MoreDigits(text, start, src);
        var digit: int := nextChar;
        v := Wrap(v * 10 + (digit - 48));
        var ok := ReadChar();
      }
      token := Int(v);
    }

    /** tc_read_quoted_char. */
    method ReadQuotedChar() returns (r: Scan)
      requires Valid() && nextType == QUOTE
      modifies this
      ensures r == TokenAt(text, old(src)) && (r.Found? ==> Valid() && src == r.next)
    {
      hide CharType;
      var ok := ReadChar();
      var value := nextChar;
      if value < 32 || value >= 127 { return Panic(11); }
      ok := ReadChar();
      if nextType != QUOTE { return Panic(12); }
      ok := ReadChar();
      r := Found(Int(value), src);
    }

    /** tc_read_identifier: the hash code of the word is computed on the way. */
    method ReadIdentifier() returns (token: Token)
      requires Valid() && nextType == TC_IDENTIFIER
      modifies this
      ensures Valid() && Found(token, src) == TokenAt(text, old(src))
    {
      hide Hash, CharType, Bucket;
      var start, hashcode: u64 := src, 0;
      NoWord(text, start);
      while nextType == TC_IDENTIFIER || nextType == TC_INTEGER
        invariant Valid() && start <= src && RunEnd(text, src, true) == RunEnd(text, start, true)
        invariant hashcode == Hash(text[start..src])
        decreases |text| - src
      {
        MoreWord(text, start, src);
        hashcode := Wrap(31 * hashcode + nextChar);
        var ok := ReadChar();
      }
      var k := GetKeyword(text[start..src], hashcode % 64);
      token := if k == TC_IDENTIFIER then Id(text[start..src]) else Tok(k);
    }

    /** tc_get_keyword, in a bucket. */
    method GetKeyword(word: seq<u8>, bucket: nat) returns (k: nat)
      requires bucket == Hash(word) % 64
      ensures k == KeywordToken(word)
    {
      hide Hash, Bucket;
      var keyword := Bucket(bucket);
      if keyword != 0 && |word| == |KEYWORDS[keyword - 1]| {
        var differ := Compare(word, KEYWORDS[keyword - 1], |word|);
        if differ == 0 { return KEYWORD_TOKENS[keyword - 1]; }
      }
      k := TC_IDENTIFIER;
    }

    /** mem_compare: how many bytes there are from the first one that differs. */
    static method Compare(x: seq<u8>, y: seq<u8>, size: nat) returns (differ: nat)
      requires size <= |x| && size <= |y|
      ensures differ <= size && x[..size - differ] == y[..size - differ]
        && (differ > 0 ==> x[size - differ] != y[size - differ])
    {
      var i := 0;
      while i < size && x[i] == y[i]
        invariant i <= size && x[..i] == y[..i]
      {
        i := i + 1;
      }
      differ := size - i;
    }

    /** tc_read_operator. */
    method ReadOperator() returns (token: Token)
      requires Valid() && 10 <= nextType < 20
      modifies this
      ensures Valid() && Found(token, src) == TokenAt(text, old(src))
    {
      hide CharType, RunEnd, Number, WordAt, QuotedAt, Blank, CommentEnd;
      OperatorTypes(nextChar);
      var first := nextType;
      var ok := ReadChar();
      var index := 4 * (first - 10);
      if nextType == first {
        ok := ReadChar();
        index := index + 1;
      } else if nextChar == 61 {
        ok := ReadChar();
        index := index + 2;
      } else if nextChar == 62 {
        ok := ReadChar();
        index := index + 3;
      }
      token := Tok(OPERATORS[index]);
    }

    /** tc_read_comment: moves to the last character of a comment, if there is one. */
    method ReadComment() returns (found: bool)
      requires src < |text|
      modifies this`src
      ensures found <==> CommentAt(text, old(src))
      ensures src == if found then CommentEnd(text, old(src)) else old(src)
    {
      if src + 1 >= |text| || text[src + 1] != 42 { return false; }
      var p := src;
      while p + 3 < |text| && !(text[p + 2] == 42 && text[p + 3] == 47)
        invariant CommentEnd(text, p) == CommentEnd(text, src) && src <= p
        decreases |text| - p
      {
        p := p + 1;
      }
      src := p + 3;
      found := true;
    }

    /** The start of tc_read_token: skips blanks and comments. */
    method SkipBlank() returns (ok: bool)
      requires Valid()
      modifies this
      ensures ok <==> Blank(text, old(src)).Some?
      ensures ok ==> Valid() && Blank(text, old(src)) == Some(src)
    {
      hide CharType, CommentEnd;
      while nextType == SPACE || nextType == TC_DIV
        invariant Valid() && Blank(text, src) == Blank(text, old(src))
        decreases |text| - src
      {
        ghost var p := src;
        if nextType == TC_DIV {
          var comment := ReadComment();
          if !comment { break; }
        }
        var more := ReadChar();
        if !more { return false; }
      }
      ok := true;
    }

    /** tc_read_token. */
    method ReadToken() returns (r: Scan)
      requires Valid()
      modifies this
      ensures r == NextToken(text, old(src)) && (r.Found? ==> Valid() && src == r.next)
    {
      hide CharType, RunEnd, KeywordToken, Number, Blank;
      var ok := SkipBlank();
      if !ok { return Panic(10); }
      var token := Tok(nextType);
      if nextType == TC_INTEGER {
        token := ReadInteger();
      } else if nextType == QUOTE {
        r := ReadQuotedChar();
        return;
      } else if nextType == TC_IDENTIFIER {
        token := ReadIdentifier();
      } else if 10 <= nextType < 20 {
        token := ReadOperator();
      } else if nextType != 0 {
        ok := ReadChar();
      }
      r := Found(token, src);
    }
  }

  lemma NoDigits(text: seq<u8>, p: nat)
    requires p <= |text|
    ensures Number(text[p..p]) == 0
  {
  }

  lemma MoreDigits(text: seq<u8>, p: nat, e: nat)
    requires p <= e < |text|
    ensures var d: int := text[e]; Number(text[p..e + 1]) == Wrap(10 * Number(text[p..e]) + d - 48)
  {
    assert text[p..e + 1][..e - p] == text[p..e];
  }

  lemma NoWord(text: seq<u8>, p: nat)
    requires p <= |text|
    ensures Hash(text[p..p]) == 0
  {
  }

  lemma MoreWord(text: seq<u8>, p: nat, e: nat)
    requires p <= e < |text|
    ensures Hash(text[p..e + 1]) == Wrap(31 * Hash(text[p..e]) + text[e])
  {
    assert text[p..e + 1][..e - p] == text[p..e];
  }

  lemma OperatorTypes(c: u8)
    ensures CharType(c) < 20 ==> CharType(c) < 17
  {
  }

  /** Scans a whole text. */
  method ScanAll(text: seq<u8>) returns (r: Option<seq<Token>>)
    ensures r == AllTokens(text, 0)
  {
    hide NextToken;
    var scanner := new Scanner(text);
    var tokens := [];
    NoTokens(text);
    while true
      invariant fresh(scanner) && scanner.text == text && scanner.Valid()
      invariant AllTokens(text, 0) == Prefixed(tokens, AllTokens(text, scanner.src))
      decreases |text| - scanner.src
    {
      PrefixStep(text, scanner.src, tokens);
      var scan := scanner.ReadToken();
      match scan {
        case Panic(_) => return None;
        case Found(token, next) =>
          if token == Tok(TC_END) { return Some(tokens); }
          tokens := tokens + [token];
      }
    }
  }

  function Prefixed(ts: seq<Token>, r: Option<seq<Token>>): Option<seq<Token>> {
    match r case None => None case Some(more) => Some(ts + more)
  }

  lemma NoTokens(text: seq<u8>)
    ensures AllTokens(text, 0) == Prefixed([], AllTokens(text, 0))
  {
    if AllTokens(text, 0).Some? { assert [] + AllTokens(text, 0).value == AllTokens(text, 0).value; }
  }

  lemma PrefixStep(text: seq<u8>, p: nat, ts: seq<Token>)
    requires p <= |text|
    ensures match NextToken(text, p)
            case Panic(_) => AllTokens(text, p) == None
            case Found(t, next) =>
              if t == Tok(TC_END) then Prefixed(ts, AllTokens(text, p)) == Some(ts)
              else Prefixed(ts, AllTokens(text, p)) == Prefixed(ts + [t], AllTokens(text, next))
  {
    hide NextToken;
    match NextToken(text, p) {
      case Panic(_) =>
      case Found(t, next) =>
        if t == Tok(TC_END) {
          assert ts + [] == ts;
        } else if AllTokens(text, next).Some? {
          assert ts + ([t] + AllTokens(text, next).value) == ts + [t] + AllTokens(text, next).value;
        }
    }
  }

  // ----- printing tokens and scanning them again -----

  function Digits(v: nat): (s: seq<u8>)
    ensures |s| > 0
  {
    if v < 10 then [48 + v] else Digits(v / 10) + [48 + v % 10]
  }

  /** The characters of the tokens that are neither integers nor words. */
  function Symbol(code: nat): seq<u8> {
    match code
    case 4 => [43] case 5 => [45] case 6 => [42] case 7 => [47] case 8 => [38] case 9 => [124] case 10 => [60,
      60] case 11 => [62, 62]
    case 12 => [60] case 13 => [61, 61] case 14 => [62] case 15 => [60, 61] case 16 => [33, 61] case 17 => [62, 61]
    case 18 => [38, 38] case 19 => [124, 124] case 20 => [45, 62] case 61 => [61]
    case 40 => [40] case 41 => [41] case 44 => [44] case 46 => [46] case 58 => [58] case 59 => [59]
    case 91 => [91] case 93 => [93] case 123 => [123] case 125 => [125]
    case _ => []
  }

  predicate IsIdentifier(word: seq<u8>) {
    word != [] && IsLetter(word[0]) && (forall i :: 0 <= i < |word| ==> IsLetter(word[i]) || IsDigit(word[i]))
    && word !in KEYWORDS
  }

  /** The place of a keyword in the table. */
  function KeywordPlace(code: nat): (i: nat)
    requires 128 <= code <= 142
    ensures i < |KEYWORDS| && KEYWORD_TOKENS[i] == code
  {
    match code
    case 128 => 1 case 129 => 2 case 130 => 3 case 131 => 4 case 132 => 5 case 133 => 6 case 134 => 7 case 135 => 9
    case 136 => 11 case 137 => 14 case 138 => 0 case 139 => 8 case 140 => 10 case 141 => 12 case _ => 13
  }

  /** How the other tokens are written: operators, comparisons, punctuation and keywords. */
  function Spelling(code: nat): string {
    match code
    case 4 => "+" case 5 => "-" case 6 => "*" case 7 => "/" case 8 => "&" case 9 => "|" case 10 => "<<" case 11 => ">>"
    case 12 => "<" case 13 => "==" case 14 => ">" case 15 => "<=" case 16 => "!=" case 17 => ">="
    case 18 => "&&" case 19 => "||" case 20 => "->" case 61 => "="
    case 40 => "(" case 41 => ")" case 44 => "," case 46 => "." case 58 => ":" case 59 => ";"
    case 91 => "[" case 93 => "]" case 123 => "{" case 125 => "}"
    case 128 => "break" case 129 => "const" case 130 => "else" case 131 => "fn" case 132 => "if" case 133 => "let"
    case 134 => "loop" case 135 => "return" case 136 => "static" case 137 => "while" case 138 => "as"
    case 139 => "null" case 140 => "sizeof" case 141 => "struct" case 142 => "u64"
    case _ => ""
  }

  predicate Written(w: seq<u8>, s: string) { |w| == |s| && forall i :: 0 <= i < |w| ==> w[i] == s[i] as int }

  /** The tokens that can be written: integers, identifiers, keywords, operators and punctuation. */
  predicate Printable(t: Token) {
    match t
    case Int(_) => true
    case Id(name) => IsIdentifier(name)
    case Tok(code) => 128 <= code <= 142 || Symbol(code) != []
  }

  function Spell(t: Token): (s: seq<u8>)
    requires Printable(t)
  {
    match t
    case Int(v) => Digits(v)
    case Id(name) => name
    case Tok(code) => if 128 <= code <= 142 then KEYWORDS[KeywordPlace(code)] else Symbol(code)
  }

  /** The tables hold these spellings. */
  lemma SpellingIs(code: nat)
    ensures Printable(Tok(code)) <==> Spelling(code) != ""
    ensures Printable(Tok(code)) ==> Written(Spell(Tok(code)), Spelling(code))
  {
  }

  ghost predicate AllPrintable(ts: seq<Token>) { forall i :: 0 <= i < |ts| ==> Printable(ts[i]) }

  /** The tokens with one space between them. */
  ghost function Print(ts: seq<Token>): seq<u8>
    requires AllPrintable(ts)
  {
    if ts == [] then [] else if |ts| == 1 then Spell(ts[0]) else Spell(ts[0]) + [SPACE] + Print(ts[1..])
  }

  lemma {:induction false} DigitsAre(v: nat)
    ensures v < TWO64 ==> Number(Digits(v)) == v
    ensures forall i :: 0 <= i < |Digits(v)| ==> IsDigit(Digits(v)[i])
    decreases v
  {
    if v < 10 {
      assert [48 + v][..0] == [];
    } else {
      DigitsAre(v / 10);
      assert Digits(v)[..|Digits(v)| - 1] == Digits(v / 10);
    }
  }

  /** A run goes to the end of the word. */
  lemma {:induction false} RunIs(text: seq<u8>, p: nat, e: nat, word: bool)
    requires p <= e <= |text| && !InRun(TypeAt(text, e), word)
    requires forall i :: p <= i < e ==> IsDigit(text[i]) || (word && IsLetter(text[i]))
    ensures RunEnd(text, p, word) == e
    decreases e - p
  {
    if p < e { RunIs(text, p + 1, e, word); }
  }

  /** The number that decimal digits stand for. */
  function Decimal(w: seq<u8>): int {
    if w == [] then 0
    else
      var last: int := w[|w| - 1];
      10 * Decimal(w[..|w| - 1]) + last - 48
  }

  lemma {:induction false} NumberIs(w: seq<u8>)
    ensures Number(w) == Decimal(w) % TWO64
    decreases |w|
  {
    if w != [] {
      NumberIs(w[..|w| - 1]);
      WrapTens(Decimal(w[..|w| - 1]), w[|w| - 1]);
    }
  }

  lemma WrapTens(x: int, d: int)
    ensures Wrap(10 * (x % TWO64) + d - 48) == (10 * x + d - 48) % TWO64
  {
    var q := x / TWO64;
    assert x == q * TWO64 + x % TWO64;
    WrapSum(10 * (x % TWO64) + d - 48, 10 * q);
  }

  lemma WrapSum(x: int, k: int)
    ensures (x + k * TWO64) % TWO64 == x % TWO64
  {
    var q, r := x / TWO64, x % TWO64;
    assert x + k * TWO64 == (q + k) * TWO64 + r;
  }

  lemma SpelledInt(text: seq<u8>, p: nat, v: u64, e: nat)
    requires p < e <= |text| && AllDigits(text[p..e]) && Decimal(text[p..e]) % TWO64 == v
      && Ends(text[p..e], text, e)
    ensures NextToken(text, p) == Found(Int(v), e)
  {
    hide Number;
    NumberIs(text[p..e]);
    forall i | p <= i < e ensures IsDigit(text[i]) {
      assert text[i] == text[p..e][i - p];
    }
    RunIs(text, p + 1, e, false);
  }

  predicate AllDigits(w: seq<u8>) { forall i :: 0 <= i < |w| ==> IsDigit(w[i]) }

  /** A quote begins an integer exactly if one of the characters from 32 to 126 and another quote follow; there is a
      panic otherwise. */
  lemma QuotedExactly(text: seq<u8>, p: nat)
    requires p < |text| && text[p] == QUOTE
    ensures NextToken(text, p) == if p + 2 < |text| && 32 <= text[p + 1] < 127 && text[p + 2] == QUOTE
      then Found(Int(text[p + 1]), p + 3)
      else Panic(if p + 1 < |text| && 32 <= text[p + 1] < 127 then 12 else 11)
  {
    if p + 2 < |text| { Types(text[p + 2]); }
  }

  /** A character between quotes is an integer. */
  lemma SpelledChar(text: seq<u8>, p: nat, c: u8)
    requires p + 3 <= |text| && text[p] == text[p + 2] == QUOTE && text[p + 1] == c && 32 <= c < 127
    ensures NextToken(text, p) == Found(Int(c), p + 3)
  {
  }

  lemma SpelledWord(text: seq<u8>, p: nat, e: nat)
    requires p < e <= |text| && !InRun(TypeAt(text, e), true) && IsLetter(text[p]) && forall i :: p <= i < e ==>
      IsLetter(text[i]) || IsDigit(text[i])
    ensures NextToken(text, p) == WordAt(text, p) && RunEnd(text, p, true) == e
  {
    hide KeywordToken;
    RunIs(text, p, e, true);
  }

  lemma SpelledId(text: seq<u8>, p: nat, name: seq<u8>, e: nat)
    requires p <= e <= |text| && IsIdentifier(name) && text[p..e] == name && Ends(name, text, e)
    ensures NextToken(text, p) == Found(Id(name), e)
  {
    hide NextToken, KeywordToken, RunEnd;
    forall i | p <= i < e ensures IsLetter(text[i]) || IsDigit(text[i]) {
      assert text[i] == name[i - p];
    }
    assert text[p] == name[0];
    SpelledWord(text, p, e);
    KeywordTokenIs(name);
  }

  lemma KeywordLetters(i: nat, j: nat)
    requires i < |KEYWORDS| && j < |KEYWORDS[i]|
    ensures |KEYWORDS[i]| > 0 && IsLetter(KEYWORDS[i][0]) && (IsLetter(KEYWORDS[i][j]) || IsDigit(KEYWORDS[i][j]))
    ensures KEYWORD_TOKENS[i] != TC_IDENTIFIER
  {
  }

  lemma SpelledKeyword(text: seq<u8>, p: nat, i: nat, e: nat)
    requires p <= e <= |text| && i < |KEYWORDS| && text[p..e] == KEYWORDS[i] && Ends(KEYWORDS[i], text, e)
    ensures NextToken(text, p) == Found(Tok(KEYWORD_TOKENS[i]), e)
  {
    hide NextToken, KeywordToken, RunEnd;
    forall k | p <= k < e ensures IsLetter(text[k]) || IsDigit(text[k]) {
      assert text[k] == KEYWORDS[i][k - p];
      KeywordLetters(i, k - p);
    }
    KeywordLetters(i, 0);
    assert text[p] == KEYWORDS[i][0];
    SpelledWord(text, p, e);
    KeywordTokenIs(KEYWORDS[i]);
  }

  /** What the scanner finds in the tables for a symbol, alone or followed by a space. */
  predicate InTables(s: seq<u8>, code: nat) {
    0 < |s| <= 2
    && var t := CharType(s[0]);
      if 10 <= t < 17 then
        var i := 4 * (t - 10);
        code == OPERATORS[if |s| == 1 then i else if CharType(s[1]) == t then i + 1 else if s[1] == 61 then i + 2
          else i + 3]
        && (|s| == 2 ==> CharType(s[1]) == t || s[1] == 61 || s[1] == 62)
      else
        |s| == 1 && t == code && t != TC_INTEGER && t != TC_IDENTIFIER && t != QUOTE && t != SPACE && t > 0
        && t != 17 && t != 18 && t != 19
  }

  lemma SymbolTables(code: nat)
    requires Symbol(code) != []
    ensures InTables(Symbol(code), code)
  {
  }

  lemma SpelledSymbol(text: seq<u8>, p: nat, code: nat, e: nat)
    requires p <= e <= |text| && Symbol(code) != [] && text[p..e] == Symbol(code) && Ends(text[p..e], text, e)
    ensures NextToken(text, p) == Found(Tok(code), e)
  {
    hide Symbol, CharType, RunEnd, Number, WordAt, QuotedAt, Blank, NextToken, OperatorAt;
    SymbolTables(code);
    assert text[p] == text[p..e][0];
    Types(text[p]);
    if |Symbol(code)| > 1 { assert text[p + 1] == text[p..e][1]; }
    NoBlank(text, p);
    if 10 <= TypeAt(text, p) < 17 { OperatorSpelled(text, p, code, e); }
  }

  lemma NoBlank(text: seq<u8>, p: nat)
    requires p <= |text| && TypeAt(text, p) != SPACE && !(TypeAt(text, p) == TC_DIV && CommentAt(text, p))
    ensures NextToken(text, p) == TokenAt(text, p)
  {
    hide TokenAt, TypeAt;
  }

  lemma OperatorSpelled(text: seq<u8>, p: nat, code: nat, e: nat)
    requires p < e <= |text| && InTables(text[p..e], code) && 10 <= TypeAt(text, p) < 17 && Ends(text[p..e], text, e)
    ensures OperatorAt(text, p) == Found(Tok(code), e)
  {
    hide CharType;
    assert text[p] == text[p..e][0];
    Types(text[p]);
    if e < |text| { Types(text[e]); }
    if e - p > 1 { assert text[p + 1] == text[p..e][1]; }
  }

  /** Which characters the types stand for. */
  lemma Types(c: u8)
    ensures CharType(c) == SPACE <==> c == 9 || c == 10 || c == 32
    ensures CharType(c) == TC_INTEGER <==> IsDigit(c)
    ensures CharType(c) == TC_IDENTIFIER <==> IsLetter(c)
    ensures (CharType(c) == TC_DIV <==> c == 47) && (CharType(c) == QUOTE <==> c == QUOTE)
    ensures 10 <= CharType(c) < 17 <==> c in {33, 38, 45, 60, 61, 62, 124}
    ensures CharType(c) != 0 && forall d: u8 :: CharType(c) == CharType(d) && 10 <= CharType(c) < 17 ==> c == d
  {
  }

  /** The text goes on after a token so that it does not become part of it. */
  predicate Ends(w: seq<u8>, text: seq<u8>, e: nat) {
    w != [] && e < |text| ==>
      if IsDigit(w[0]) then !IsDigit(text[e])
      else if IsLetter(w[0]) then !IsDigit(text[e]) && !IsLetter(text[e])
      else if w == [47] then text[e] != 42
      else if |w| == 1 && w[0] in {33, 38, 45, 60, 61, 62, 124} then text[e] != w[0] && text[e] != 61 && text[e] != 62
      else true
  }

  lemma Spelled(text: seq<u8>, p: nat, t: Token, e: nat)
    requires p <= e <= |text| && Ends(text[p..e], text, e) && Spells(t, text[p..e])
    ensures NextToken(text, p) == Found(t, e) && t != Tok(TC_END) && p < e
  {
    hide NextToken, Digits, IsIdentifier, Symbol, Decimal, Ends;
    match t {
      case Int(v) =>
        if AllDigits(text[p..e]) {
          SpelledInt(text, p, v, e);
        } else {
          assert text[p] == text[p..e][0] && text[p + 1] == text[p..e][1] && text[p + 2] == text[p..e][2];
          SpelledChar(text, p, text[p + 1]);
        }
      case Id(name) => SpelledId(text, p, name, e);
      case Tok(code) =>
        if 128 <= code <= 142 {
          SpelledKeyword(text, p, KeywordPlace(code), e);
        } else {
          SpelledSymbol(text, p, code, e);
          NoEndSymbol(code);
        }
    }
  }

  lemma NoEndSymbol(code: nat)
    requires Symbol(code) != []
    ensures code != TC_END
  {
  }

  /** How a token may be written: an integer in decimal, modulo 2^64, or as a character between quotes. */
  predicate Spells(t: Token, w: seq<u8>) {
    match t
    case Int(v) =>
      (w != [] && AllDigits(w) && v == Decimal(w) % TWO64)
      || (|w| == 3 && w[0] == w[2] == QUOTE && w[1] == v && 32 <= v < 127)
    case _ => Printable(t) && w == Spell(t)
  }

  /** A comment: it ends where it can end first. */
  predicate IsComment(w: seq<u8>) {
    var n := |w|;
    4 <= n && w[0] == 47 && w[1] == 42 && w[n - 2] == 42 && w[n - 1] == 47
    && forall k :: 2 <= k < n - 2 ==> !(w[k] == 42 && w[k + 1] == 47)
  }

  /** What may come between tokens: spaces, tabs, ends of lines, and comments. */
  predicate IsGap(gap: seq<seq<u8>>) {
    forall i :: 0 <= i < |gap| ==> gap[i] == [9] || gap[i] == [10] || gap[i] == [32] || IsComment(gap[i])
  }

  function Joined(ws: seq<seq<u8>>): seq<u8> { if ws == [] then [] else ws[0] + Joined(ws[1..]) }

  /** A token as it is written after a gap. */
  datatype Piece = Piece(gap: seq<seq<u8>>, token: Token, word: seq<u8>)

  function TextOf(ps: seq<Piece>, end: seq<seq<u8>>): seq<u8> {
    if ps == [] then Joined(end) else Joined(ps[0].gap) + (ps[0].word + TextOf(ps[1..], end))
  }

  function TokensOf(ps: seq<Piece>): seq<Token> { if ps == [] then [] else [ps[0].token] + TokensOf(ps[1..]) }

  /** Every token is spelled, and what comes after it does not continue it. */
  ghost predicate LaidOut(ps: seq<Piece>, end: seq<seq<u8>>) {
    if ps == [] then IsGap(end)
    else
      IsGap(ps[0].gap) && Spells(ps[0].token, ps[0].word) && Ends(ps[0].word, TextOf(ps[1..], end), 0)
      && LaidOut(ps[1..], end)
  }

  /** However tokens are laid out in a text, scanning gives them back. */
  lemma TextScanned(ps: seq<Piece>, end: seq<seq<u8>>)
    requires LaidOut(ps, end)
    ensures AllTokens(TextOf(ps, end), 0) == Some(TokensOf(ps))
  {
    hide *;
    var text := TextOf(ps, end);
    assert text[0..] == text;
    ScannedFrom(text, 0, ps, end);
  }

  lemma {:induction false} ScannedFrom(text: seq<u8>, p: nat, ps: seq<Piece>, end: seq<seq<u8>>)
    requires p <= |text| && LaidOut(ps, end) && text[p..] == TextOf(ps, end)
    ensures AllTokens(text, p) == Some(TokensOf(ps))
    decreases |ps|
  {
    hide NextToken, Spells, Ends, IsGap, AllTokens;
    if ps == [] {
      GapSkipped(text, p, end, []);
      EndScanned(text);
    } else {
      var rest := TextOf(ps[1..], end);
      var w := ps[0].word;
      GapSkipped(text, p, ps[0].gap, w + rest);
      var q := p + |Joined(ps[0].gap)|;
      SuffixParts(text, q, w, rest);
      EndsSame(w, text, q + |w|, rest);
      Spelled(text, q, ps[0].token, q + |w|);
      TokenScanned(text, q, ps[0].token, q + |w|);
      ScannedFrom(text, q + |w|, ps[1..], end);
    }
  }

  lemma TokenScanned(text: seq<u8>, p: nat, t: Token, e: nat)
    requires p < e <= |text| && NextToken(text, p) == Found(t, e) && t != Tok(TC_END)
    ensures AllTokens(text, p) == match AllTokens(text, e) case None => None case Some(ts) => Some([t] + ts)
  {
    hide NextToken;
  }

  lemma SuffixParts(text: seq<u8>, p: nat, w: seq<u8>, rest: seq<u8>)
    requires p <= |text| && text[p..] == w + rest
    ensures p + |w| <= |text| && text[p..p + |w|] == w && text[p + |w|..] == rest
  {
    assert text[p..p + |w|] == text[p..][..|w|] && text[p + |w|..] == text[p..][|w|..];
  }

  lemma EndsSame(w: seq<u8>, text: seq<u8>, e: nat, rest: seq<u8>)
    requires e <= |text| && text[e..] == rest
    ensures Ends(w, rest, 0) <==> Ends(w, text, e)
  {
    if e < |text| { assert text[e] == rest[0]; }
  }

  /** A gap changes nothing. */
  lemma {:induction false} GapSkipped(text: seq<u8>, p: nat, gap: seq<seq<u8>>, rest: seq<u8>)
    requires p <= |text| && IsGap(gap) && text[p..] == Joined(gap) + rest
    ensures var q := p + |Joined(gap)|;
      q <= |text| && text[q..] == rest && AllTokens(text, p) == AllTokens(text, q)
    decreases |gap|
  {
    hide AllTokens, IsComment;
    if gap != [] {
      var w, more := gap[0], Joined(gap[1..]) + rest;
      assert text[p..] == w + more;
      SuffixParts(text, p, w, more);
      if IsComment(w) { CommentSkipped(text, p, w); } else { SpaceSkipped(text, p); }
      GapSkipped(text, p + |w|, gap[1..], rest);
    }
  }

  lemma CommentSkipped(text: seq<u8>, p: nat, w: seq<u8>)
    requires p + |w| <= |text| && IsComment(w) && text[p..p + |w|] == w
    ensures AllTokens(text, p) == AllTokens(text, p + |w|)
  {
    hide TokenAt, CharType, CommentEnd;
    assert text[p] == w[0] && text[p + 1] == w[1];
    Types(text[p]);
    CommentEnds(text, p, w, 0);
  }

  lemma {:induction false} CommentEnds(text: seq<u8>, p: nat, w: seq<u8>, k: nat)
    requires p + |w| <= |text| && IsComment(w) && text[p..p + |w|] == w && k + 4 <= |w|
    ensures CommentEnd(text, p + k) == p + |w| - 1
    decreases |w| - k
  {
    assert text[p + k + 2] == w[k + 2] && text[p + k + 3] == w[k + 3];
    if k + 4 < |w| { CommentEnds(text, p, w, k + 1); }
  }

  // ----- and only such texts -----

  /** A text that scans to tokens, all of them known, is one in which they are laid out. */
  lemma OnlyLaidOut(text: seq<u8>) returns (ps: seq<Piece>, end: seq<seq<u8>>)
    requires AllTokens(text, 0).Some? && Tok(TC_UNKNOWN) !in AllTokens(text, 0).value
    ensures LaidOut(ps, end) && TextOf(ps, end) == text && AllTokens(text, 0) == Some(TokensOf(ps))
  {
    hide AllTokens, LaidOut, TextOf, TokensOf;
    ps, end := PiecesFrom(text, 0);
    assert text[0..] == text;
  }

  lemma {:induction false} PiecesFrom(text: seq<u8>, p: nat) returns (ps: seq<Piece>, end: seq<seq<u8>>)
    requires p <= |text| && AllTokens(text, p).Some? && Tok(TC_UNKNOWN) !in AllTokens(text, p).value
    ensures LaidOut(ps, end) && TextOf(ps, end) == text[p..] && AllTokens(text, p) == Some(TokensOf(ps))
    decreases |text| - p
  {
    hide TokenAt, Spells, Ends, IsGap, Blank;
    var q := Blank(text, p).value;
    var gap := GapTo(text, p);
    var scan := TokenAt(text, q);
    assert text[p..] == text[p..q] + text[q..];
    if scan.token == Tok(TC_END) {
      ps, end := [], gap;
      StartsToken(text, p);
      AtEnd(text, q);
      assert text[p..] == text[p..q];
    } else {
      var t, e := scan.token, scan.next;
      var more := AllTokens(text, e).value;
      assert AllTokens(text, p).value == [t] + more;
      var rest;
      rest, end := PiecesFrom(text, e);
      var w := text[q..e];
      StartsToken(text, p);
      TokenSpelled(text, q);
      EndsSame(w, text, e, text[e..]);
      ps := [Piece(gap, t, w)] + rest;
      assert ps[1..] == rest;
      assert text[q..] == w + text[e..];
    }
  }

  lemma AtEnd(text: seq<u8>, q: nat)
    requires q <= |text| && TokenAt(text, q).Found? && TokenAt(text, q).token == Tok(TC_END)
    requires TypeAt(text, q) != SPACE && !(TypeAt(text, q) == TC_DIV && CommentAt(text, q))
    ensures q == |text|
  {
    hide TokenAt, CharType;
    if q < |text| { TokenSpelled(text, q); }
  }

  /** Where a token starts there is no blank, and no comment. */
  lemma {:induction false} StartsToken(text: seq<u8>, p: nat)
    requires p <= |text| && Blank(text, p).Some?
    ensures var q := Blank(text, p).value;
      TypeAt(text, q) != SPACE && !(TypeAt(text, q) == TC_DIV && CommentAt(text, q))
    decreases |text| - p
  {
    hide CharType, CommentEnd;
    if TypeAt(text, p) == SPACE {
      StartsToken(text, p + 1);
    } else if TypeAt(text, p) == TC_DIV && CommentAt(text, p) {
      StartsToken(text, CommentEnd(text, p) + 1);
    }
  }

  /** What is skipped before a token is a gap. */
  lemma {:induction false} GapTo(text: seq<u8>, p: nat) returns (gap: seq<seq<u8>>)
    requires p <= |text| && Blank(text, p).Some?
    ensures IsGap(gap) && Joined(gap) == text[p..Blank(text, p).value]
    decreases |text| - p
  {
    hide CharType, CommentEnd, IsComment;
    gap := [];
    if p < |text| { Types(text[p]); }
    var e := p;
    if TypeAt(text, p) == SPACE {
      e := p + 1;
    } else if TypeAt(text, p) == TC_DIV && CommentAt(text, p) {
      e := CommentEnd(text, p) + 1;
      CommentFound(text, p);
    }
    if e > p {
      var more := GapTo(text, e);
      gap := [text[p..e]] + more;
      assert gap[1..] == more;
      assert text[p..Blank(text, p).value] == text[p..e] + text[e..Blank(text, p).value];
    }
  }

  lemma CommentFound(text: seq<u8>, p: nat)
    requires p < |text| && text[p] == 47 && CommentAt(text, p) && CommentEnd(text, p) < |text|
    ensures IsComment(text[p..CommentEnd(text, p) + 1])
  {
    FirstEnd(text, p, p);
  }

  lemma {:induction false} FirstEnd(text: seq<u8>, p: nat, k: nat)
    requires p <= k && k + 1 < |text| && CommentEnd(text, k) < |text|
    ensures var e := CommentEnd(text, k);
      k + 3 <= e && text[e - 1] == 42 && text[e] == 47
      && forall i :: k + 2 <= i < e - 1 ==> !(text[i] == 42 && text[i + 1] == 47)
    decreases |text| - k
  {
    if k + 3 < |text| && !(text[k + 2] == 42 && text[k + 3] == 47) { FirstEnd(text, p, k + 1); }
  }

  /** A token is spelled by its characters, and the next one does not continue it. */
  lemma TokenSpelled(text: seq<u8>, p: nat)
    requires p < |text| && TypeAt(text, p) != SPACE && !(TypeAt(text, p) == TC_DIV && CommentAt(text, p))
    requires TokenAt(text, p).Found? && TokenAt(text, p).token != Tok(TC_UNKNOWN)
    ensures var scan := TokenAt(text, p);
      p < scan.next && Spells(scan.token, text[p..scan.next]) && Ends(text[p..scan.next], text, scan.next)
  {
    hide CharType, RunEnd, Number, Decimal, KeywordToken, OperatorAt, QuotedAt, WordAt, Spells, Ends;
    Types(text[p]);
    if IsDigit(text[p]) {
      DigitsSpelled(text, p);
    } else if IsLetter(text[p]) {
      WordSpelled(text, p);
    } else if text[p] == QUOTE {
      QuoteSpelled(text, p);
    } else if 10 <= TypeAt(text, p) < 17 {
      OperatorFound(text, p);
    } else {
      SignSpelled(text, p);
    }
  }

  /** A run goes as far as it can. */
  lemma {:induction false} RunFound(text: seq<u8>, p: nat, word: bool)
    requires p <= |text|
    ensures var e := RunEnd(text, p, word);
      !InRun(TypeAt(text, e), word)
      && forall i :: p <= i < e ==> IsDigit(text[i]) || (word && IsLetter(text[i]))
    decreases |text| - p
  {
    hide CharType;
    if p < |text| { Types(text[p]); }
    if InRun(TypeAt(text, p), word) { RunFound(text, p + 1, word); }
  }

  lemma DigitsSpelled(text: seq<u8>, p: nat)
    requires p < |text| && IsDigit(text[p])
    ensures var e := RunEnd(text, p + 1, false);
      TokenAt(text, p) == Found(Int(Number(text[p..e])), e) && Spells(Int(Number(text[p..e])), text[p..e])
      && Ends(text[p..e], text, e)
  {
    hide RunEnd, Number, Decimal;
    var e := RunEnd(text, p + 1, false);
    RunFound(text, p + 1, false);
    NumberIs(text[p..e]);
    assert text[p..e][0] == text[p];
    if e < |text| { Types(text[e]); }
  }

  lemma WordSpelled(text: seq<u8>, p: nat)
    requires p < |text| && IsLetter(text[p])
    ensures var scan := TokenAt(text, p);
      scan.Found? && p < scan.next && Spells(scan.token, text[p..scan.next])
      && Ends(text[p..scan.next], text, scan.next)
  {
    hide RunEnd, KeywordToken, CharType;
    Types(text[p]);
    var e := RunEnd(text, p, true);
    RunFound(text, p, true);
    WordStart(text, p);
    var w := text[p..e];
    assert w[0] == text[p];
    if e < |text| { Types(text[e]); }
    KeywordTokenIs(w);
    if w in KEYWORDS {
      var i :| 0 <= i < |KEYWORDS| && KEYWORDS[i] == w;
      KeywordSpell(i);
    }
  }

  lemma WordStart(text: seq<u8>, p: nat)
    requires p < |text| && IsLetter(text[p])
    ensures RunEnd(text, p, true) > p && TypeAt(text, p) == TC_IDENTIFIER
  {
  }

  lemma KeywordSpell(i: nat)
    requires i < |KEYWORDS|
    ensures var t := Tok(KEYWORD_TOKENS[i]); Printable(t) && Spell(t) == KEYWORDS[i]
    ensures KEYWORD_TOKENS[i] != TC_IDENTIFIER
  {
  }

  lemma QuoteSpelled(text: seq<u8>, p: nat)
    requires p < |text| && text[p] == QUOTE && TokenAt(text, p).Found?
    ensures var scan := TokenAt(text, p);
      p < scan.next && Spells(scan.token, text[p..scan.next]) && Ends(text[p..scan.next], text, scan.next)
  {
    if p + 2 < |text| { Types(text[p + 2]); }
  }

  lemma OperatorFound(text: seq<u8>, p: nat)
    requires p < |text| && 10 <= TypeAt(text, p) < 17 && OperatorAt(text, p).token != Tok(TC_UNKNOWN)
    ensures var scan := OperatorAt(text, p);
      TokenAt(text, p) == scan && p < scan.next <= |text|
      && Spells(scan.token, text[p..scan.next]) && Ends(text[p..scan.next], text, scan.next)
  {
    hide CharType, Symbol, OperatorAt, Ends;
    OperatorChar(text[p]);
    OperatorSymbol(text, p);
    OperatorEnds(text, p);
  }

  lemma OperatorSymbol(text: seq<u8>, p: nat)
    requires p < |text| && 10 <= TypeAt(text, p) < 17 && OperatorAt(text, p).token != Tok(TC_UNKNOWN)
    ensures var scan := OperatorAt(text, p);
      scan.Found? && scan.token.Tok? && p < scan.next <= |text| && IsSymbol(scan.token.code, text[p..scan.next])
  {
    hide CharType, Symbol, IsSymbol;
    OperatorTable(text[p]);
    OneChar(text, p);
    if p + 1 < |text| {
      SameType(text[p], text[p + 1]);
      TwoChars(text, p);
    }
  }

  lemma OneChar(text: seq<u8>, p: nat)
    requires p < |text|
    ensures text[p..p + 1] == [text[p]]
  {
  }

  lemma TwoChars(text: seq<u8>, p: nat)
    requires p + 1 < |text|
    ensures text[p..p + 2] == [text[p], text[p + 1]]
  {
  }

  lemma OperatorEnds(text: seq<u8>, p: nat)
    requires p < |text| && 10 <= TypeAt(text, p) < 17
    ensures var scan := OperatorAt(text, p);
      scan.Found? && (p < scan.next <= |text| ==> Ends(text[p..scan.next], text, scan.next))
  {
    hide CharType;
    OperatorChar(text[p]);
    if p + 1 < |text| { SameType(text[p], text[p + 1]); }
    var e := OperatorAt(text, p).next;
    if e <= |text| { assert text[p..e][0] == text[p] && |text[p..e]| == e - p; }
  }

  lemma OperatorChar(c: u8)
    requires 10 <= CharType(c) < 17
    ensures !IsDigit(c) && !IsLetter(c) && c != 47
  {
  }

  lemma SameType(c: u8, d: u8)
    requires 10 <= CharType(c) < 17
    ensures CharType(d) == CharType(c) <==> d == c
  {
  }

  /** The table has the operators that start with a character: alone, doubled, before = and before >. */
  lemma OperatorTable(c: u8)
    requires 10 <= CharType(c) < 17
    ensures var i := 4 * (CharType(c) - 10);
      (OPERATORS[i] != TC_UNKNOWN ==> IsSymbol(OPERATORS[i], [c]))
      && (OPERATORS[i + 1] != TC_UNKNOWN ==> IsSymbol(OPERATORS[i + 1], [c, c]))
      && (OPERATORS[i + 2] != TC_UNKNOWN && c != 61 ==> IsSymbol(OPERATORS[i + 2], [c, 61]))
      && (OPERATORS[i + 3] != TC_UNKNOWN && c != 62 ==> IsSymbol(OPERATORS[i + 3], [c, 62]))
  {
  }

  predicate IsSymbol(code: nat, w: seq<u8>) { Symbol(code) == w && !(128 <= code <= 142) }

  lemma SignSpelled(text: seq<u8>, p: nat)
    requires p < |text| && !IsDigit(text[p]) && !IsLetter(text[p]) && text[p] != QUOTE && !(10 <= TypeAt(text, p) < 17)
    requires TypeAt(text, p) != SPACE && !(TypeAt(text, p) == TC_DIV && CommentAt(text, p))
    requires TypeAt(text, p) != TC_UNKNOWN
    ensures TokenAt(text, p) == Found(Tok(TypeAt(text, p)), p + 1)
    ensures Spells(Tok(TypeAt(text, p)), text[p..p + 1]) && Ends(text[p..p + 1], text, p + 1)
  {
    var t := TypeAt(text, p);
    assert text[p..p + 1] == [text[p]];
  }

  /** A space before a token changes nothing. */
  lemma SpaceSkipped(text: seq<u8>, p: nat)
    requires p < |text| && (text[p] == 9 || text[p] == 10 || text[p] == SPACE)
    ensures AllTokens(text, p) == AllTokens(text, p + 1)
  {
    hide TokenAt;
  }

  lemma PrintSpells(t: Token)
    requires Printable(t)
    ensures Spells(t, Spell(t)) && Spell(t) != []
  {
    hide Digits, Decimal, Number;
    if t.Int? {
      DigitsAre(t.v);
      NumberIs(Digits(t.v));
    } else if t.Tok? && 128 <= t.code <= 142 {
      KeywordLetters(KeywordPlace(t.code), 0);
    }
  }

  /** Scanning what was printed gives the tokens back. */
  lemma RoundTrip(ts: seq<Token>)
    requires AllPrintable(ts)
    ensures AllTokens(Print(ts), 0) == Some(ts)
  {
    hide AllTokens, AllPrintable;
    assert Print(ts)[0..] == Print(ts);
    PrintedAt(Print(ts), 0, ts);
  }

  lemma {:induction false} PrintedAt(text: seq<u8>, p: nat, ts: seq<Token>)
    requires p <= |text| && AllPrintable(ts) && text[p..] == Print(ts)
    ensures AllTokens(text, p) == Some(ts)
    decreases |ts|
  {
    hide NextToken, Spell, Printable, Spells, AllTokens;
    if ts == [] {
      EndScanned(text);
    } else if |ts| == 1 {
      assert text[p..|text|] == text[p..];
      PrintSpells(ts[0]);
      Spelled(text, p, ts[0], |text|);
      TokenScanned(text, p, ts[0], |text|);
      EndScanned(text);
      assert ts == [ts[0]] + [];
    } else {
      var e := p + |Spell(ts[0])|;
      PrintedParts(text, p, Spell(ts[0]), Print(ts[1..]));
      PrintSpells(ts[0]);
      Spelled(text, p, ts[0], e);
      TokenScanned(text, p, ts[0], e);
      SpaceSkipped(text, e);
      PrintedAt(text, e + 1, ts[1..]);
      assert ts == [ts[0]] + ts[1..];
    }
  }

  lemma PrintedParts(text: seq<u8>, p: nat, first: seq<u8>, rest: seq<u8>)
    requires p <= |text| && text[p..] == first + [SPACE] + rest
    ensures var e := p + |first|; e < |text| && text[p..e] == first && text[e] == SPACE && text[e + 1..] == rest
  {
    var e := p + |first|;
    assert text[p..e] == text[p..][..|first|] && text[e] == text[p..][|first|]
      && text[e + 1..] == text[p..][|first| + 1..];
  }

  lemma EndToken(text: seq<u8>)
    ensures NextToken(text, |text|) == Found(Tok(TC_END), |text|)
  {
  }

  lemma EndScanned(text: seq<u8>)
    ensures AllTokens(text, |text|) == Some([])
  {
    hide NextToken;
    EndToken(text);
  }
}
