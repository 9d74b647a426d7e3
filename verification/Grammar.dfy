/** The grammar is unambiguous: tokens are those of one program at most. The proof reads the tokens as the compiler
    does, from the first one to the last, one token ahead. */
module Grammar {
  import opened Words
  import opened Source
  import opened Syntax
  import opened Correctness

  /** What was read, and the tokens after it. */
  datatype Reading<T> = Reading(tree: T, rest: seq<Token>)

  predicate Starts(ts: seq<Token>, code: nat) { ts != [] && ts[0] == Tok(code) }

  /** Two tokens, the second of them a name. */
  predicate StartsName(ts: seq<Token>) { ts != [] && ts[0].Id? }

  // ----- types -----

  function ReadAnds(ts: seq<Token>): (r: Reading<List<bool>>)
    ensures |r.rest| <= |ts|
    decreases |ts|
  {
    if Starts(ts, TC_AND) || Starts(ts, TC_BIT_AND) then
      var more := ReadAnds(ts[1..]);
      Reading(List.Cons(ts[0] == Tok(TC_AND), more.tree), more.rest)
    else Reading(List.Nil, ts)
  }

  function ReadType(ts: seq<Token>): (r: Option<Reading<TypeTree>>)
    ensures r.Some? ==> |r.value.rest| < |ts|
  {
    var ands := ReadAnds(ts);
    if Starts(ands.rest, TC_U64) then Some(Reading(TypeTree(ands.tree, None), ands.rest[1..]))
    else if StartsName(ands.rest) then
      Some(Reading(TypeTree(ands.tree, Option.Some(ands.rest[0].name)), ands.rest[1..]))
    else None
  }

  lemma {:induction false} AndsRead(ands: List<bool>, rest: seq<Token>)
    requires !Starts(rest, TC_AND) && !Starts(rest, TC_BIT_AND)
    ensures ReadAnds(PrintAnds(ands) + rest) == Reading(ands, rest)
    decreases ands
  {
    if ands.Nil? {
      assert PrintAnds(ands) + rest == rest;
    } else {
      AndsRead(ands.tail, rest);
      assert (PrintAnds(ands) + rest)[1..] == PrintAnds(ands.tail) + rest;
    }
  }

  lemma TypeRead(t: TypeTree, rest: seq<Token>)
    ensures ReadType(PrintType(t) + rest) == Some(Reading(t, rest))
  {
    var base := if t.base.None? then Tok(TC_U64) else Id(t.base.value);
    AndsRead(t.ands, [base] + rest);
    assert PrintType(t) + rest == PrintAnds(t.ands) + ([base] + rest);
  }

  // ----- expressions -----

  /** The rest does not continue an expression of the rule. */
  predicate Stops(rest: seq<Token>, rule: nat) {
    rest != [] && rest[0].Tok? ==>
      var code := rest[0].code;
      && code != TC_OPEN && (rule >= 1 ==> code != TC_DOT) && (rule >= 3 ==> code != TC_AS) && OpLevel(code) > rule
  }

  function ReadPrimitive(ts: seq<Token>): (r: Option<Reading<Tree>>)
    ensures r.Some? ==> |r.value.rest| < |ts|
    decreases |ts|, 0
  {
    if ts == [] then None
    else
      match ts[0]
      case Int(v) => Some(Reading(TInt(v), ts[1..]))
      case Id(x) =>
        if !Starts(ts[1..], TC_OPEN) then Some(Reading(TName(x), ts[1..]))
        else
          var args := ReadArgs(ts[2..]);
          if args.None? || args.value.rest == [] then None
          else Some(Reading(TCall(x, args.value.tree), args.value.rest[1..]))
      case Tok(code) =>
        if code == TC_NULL then Some(Reading(TNull, ts[1..]))
        else if code == TC_SIZEOF then
          if |ts| < 4 || !ts[2].Id? then None else Some(Reading(TSizeof(ts[2].name), ts[4..]))
        else if code == TC_OPEN then
          var e := ReadExpr(ts[1..], 8);
          if e.None? || e.value.rest == [] then None else Some(Reading(TParen(e.value.tree), e.value.rest[1..]))
        else None
  }

  function ReadExpr(ts: seq<Token>, rule: nat): (r: Option<Reading<Tree>>)
    ensures r.Some? ==> |r.value.rest| < |ts|
    decreases |ts|, rule + 1
  {
    if rule == 0 then ReadPrimitive(ts)
    else if rule == 2 && Starts(ts, TC_MUL) then
      var e := ReadExpr(ts[1..], 2);
      if e.None? then None else Some(Reading(TDeref(e.value.tree), e.value.rest))
    else if rule == 2 && Starts(ts, TC_BIT_AND) then
      var e := ReadExpr(ts[1..], 1);
      if e.None? then None else Some(Reading(TRef(e.value.tree), e.value.rest))
    else
      var e := ReadExpr(ts, rule - 1);
      if e.None? then None else ReadMore(e.value.tree, e.value.rest, rule)
  }

  /** What may follow an operand, or an expression of the same rule. */
  function ReadMore(e: Tree, ts: seq<Token>, rule: nat): (r: Option<Reading<Tree>>)
    ensures r.Some? ==> |r.value.rest| <= |ts|
    decreases |ts|, rule
  {
    if rule == 1 && Starts(ts, TC_DOT) && StartsName(ts[1..]) then ReadMore(TPath(e, ts[1].name), ts[2..], 1)
    else if rule == 3 && Starts(ts, TC_AS) then
      var t := ReadType(ts[1..]);
      if t.None? then None else Some(Reading(TCast(e, t.value.tree), t.value.rest))
    else if rule >= 4 && ts != [] && ts[0].Tok? && OpLevel(ts[0].code) == rule <= 8 then
      var r := ReadExpr(ts[1..], rule - 1);
      if r.None? then None
      else
        var bin := TBin(ts[0].code, e, r.value.tree);
        if rule == 6 then Some(Reading(bin, r.value.rest)) else ReadMore(bin, r.value.rest, rule)
    else Some(Reading(e, ts))
  }

  function ReadArgs(ts: seq<Token>): (r: Option<Reading<List<Tree>>>)
    ensures r.Some? ==> |r.value.rest| <= |ts|
    decreases |ts|, 20
  {
    if Starts(ts, TC_CLOSE) then Some(Reading(List.Nil, ts))
    else
      var e := ReadExpr(ts, 8);
      if e.None? then None
      else if Starts(e.value.rest, TC_COMMA) then
        var more := ReadArgs(e.value.rest[1..]);
        if more.None? then None else Some(Reading(List.Cons(e.value.tree, more.value.tree), more.value.rest))
      else Some(Reading(List.Cons(e.value.tree, List.Nil), e.value.rest))
  }

  /** Nothing more is read where the rest stops. */
  lemma NoMore(e: Tree, rest: seq<Token>, rule: nat)
    requires Stops(rest, rule) && rule <= 8
    ensures ReadMore(e, rest, rule) == Some(Reading(e, rest))
  {
  }

  /** An expression starts with a primitive expression, or with * or &, which only some do. */
  lemma {:induction false} FirstToken(e: Tree)
    requires Grammatical(e)
    ensures Print(e) != [] && Print(e)[0] != Tok(TC_CLOSE) && Print(e)[0] != Tok(TC_SEMICOLON)
    ensures Rule(e) <= 1 ==> Print(e)[0] != Tok(TC_MUL) && Print(e)[0] != Tok(TC_BIT_AND)
    ensures Print(e)[0].Tok? ==> Print(e)[0].code in {TC_NULL, TC_SIZEOF, TC_OPEN, TC_MUL, TC_BIT_AND}
    decreases e
  {
    match e
    case TPath(a, _) => FirstToken(a);
    case TCast(a, _) => FirstToken(a);
    case TBin(_, l, _) => FirstToken(l);
    case _ =>
  }

  /** Reading the tokens of an expression gives the expression, and goes on after it. */
  lemma {:induction false} ExprRead(e: Tree, rest: seq<Token>, rule: nat)
    requires Grammatical(e) && Rule(e) <= rule <= 8
    requires rule > 0 ==> Stops(rest, rule - 1)
    requires rule == 0 || (Rule(e) == rule && (rule == 3 || rule == 6)) ==> Stops(rest, rule)
    ensures ReadExpr(Print(e) + rest, rule) == ReadMore(e, rest, rule)
    decreases e, rule + 1
  {
    hide ReadPrimitive, ReadArgs, ReadType, PrintType, ReadMore, Stops, Grammatical, Print, ReadExpr;
    if Rule(e) < rule {
      LowerRule(e, rest, rule);
      ExprRead(e, rest, rule - 1);
      NoMore(e, rest, rule - 1);
    } else {
      match e
      case TPath(a, x) => PathRead(a, x, rest);
      case TDeref(a) => DerefRead(a, rest);
      case TRef(a) => RefRead(a, rest);
      case TCast(a, t) => CastRead(a, t, rest);
      case TBin(op, l, r) => BinRead(op, l, r, rest);
      case _ => PrimitiveRead(e, rest);
    }
  }

  lemma LowerRule(e: Tree, rest: seq<Token>, rule: nat)
    requires Grammatical(e) && Rule(e) < rule <= 8 && Stops(rest, rule - 1)
    ensures rule > 1 ==> Stops(rest, rule - 2)
    ensures var r := ReadExpr(Print(e) + rest, rule - 1);
      ReadExpr(Print(e) + rest, rule) == if r.None? then None else ReadMore(r.value.tree, r.value.rest, rule)
  {
    hide ReadPrimitive, ReadMore, Print, Grammatical;
    FirstToken(e);
  }

  lemma PathRead(a: Tree, x: Name, rest: seq<Token>)
    requires Grammatical(TPath(a, x)) && Stops(rest, 0)
    ensures ReadExpr(Print(TPath(a, x)) + rest, 1) == ReadMore(TPath(a, x), rest, 1)
    decreases a, 20
  {
    hide ReadExpr;
    var more := [Tok(TC_DOT), Id(x)] + rest;
    assert Print(TPath(a, x)) + rest == Print(a) + more && more[2..] == rest;
    ExprRead(a, more, 1);
  }

  lemma DerefRead(a: Tree, rest: seq<Token>)
    requires Grammatical(TDeref(a)) && Stops(rest, 1)
    ensures ReadExpr(Print(TDeref(a)) + rest, 2) == ReadMore(TDeref(a), rest, 2)
    decreases a, 20
  {
    assert (Print(TDeref(a)) + rest)[1..] == Print(a) + rest;
    ExprRead(a, rest, 2);
  }

  lemma RefRead(a: Tree, rest: seq<Token>)
    requires Grammatical(TRef(a)) && Stops(rest, 1)
    ensures ReadExpr(Print(TRef(a)) + rest, 2) == ReadMore(TRef(a), rest, 2)
    decreases a, 20
  {
    assert (Print(TRef(a)) + rest)[1..] == Print(a) + rest;
    ExprRead(a, rest, 1);
    NoMore(a, rest, 1);
  }

  lemma CastRead(a: Tree, t: TypeTree, rest: seq<Token>)
    requires Grammatical(TCast(a, t)) && Stops(rest, 3)
    ensures ReadExpr(Print(TCast(a, t)) + rest, 3) == ReadMore(TCast(a, t), rest, 3)
    decreases a, 20
  {
    hide ReadType, PrintType;
    var more := [Tok(TC_AS)] + (PrintType(t) + rest);
    assert Print(TCast(a, t)) + rest == Print(a) + more && more[1..] == PrintType(t) + rest;
    ExprRead(a, more, 2);
    NoMore(a, more, 2);
    TypeRead(t, rest);
    NoMore(TCast(a, t), rest, 3);
  }

  lemma BinRead(op: nat, l: Tree, r: Tree, rest: seq<Token>)
    requires Grammatical(TBin(op, l, r)) && Stops(rest, OpLevel(op) - 1)
      && (OpLevel(op) == 6 ==> Stops(rest, 6))
    ensures ReadExpr(Print(TBin(op, l, r)) + rest, OpLevel(op)) == ReadMore(TBin(op, l, r), rest, OpLevel(op))
    decreases TBin(op, l, r), 0
  {
    hide ReadExpr, ReadMore, Print;
    var rule := OpLevel(op);
    var more := [Tok(op)] + (Print(r) + rest);
    PrintBin(op, l, r, rest);
    assert more[1..] == Print(r) + rest;
    StopsAt(op, more);
    ExprRead(r, rest, rule - 1);
    NoMore(r, rest, rule - 1);
    OperandRead(op, l, r, more, rest);
    if rule == 6 {
      ExprRead(l, more, 5);
      NoMore(l, more, 5);
      ShiftUnfold(Print(l) + more, l, more);
      NoMore(TBin(op, l, r), rest, 6);
    } else {
      ExprRead(l, more, rule);
    }
  }

  lemma PrintBin(op: nat, l: Tree, r: Tree, rest: seq<Token>)
    ensures Print(TBin(op, l, r)) + rest == Print(l) + ([Tok(op)] + (Print(r) + rest))
  {
  }

  /** An operator ends its left operand. */
  lemma StopsAt(op: nat, more: seq<Token>)
    requires 4 <= OpLevel(op) <= 8 && Starts(more, op)
    ensures Stops(more, OpLevel(op) - 1)
  {
  }

  /** An operator after an operand. */
  lemma OperandRead(op: nat, l: Tree, r: Tree, more: seq<Token>, rest: seq<Token>)
    requires 4 <= OpLevel(op) <= 8 && Starts(more, op)
      && ReadExpr(more[1..], OpLevel(op) - 1) == Some(Reading(r, rest))
    ensures ReadMore(l, more, OpLevel(op))
         == if OpLevel(op) == 6 then Some(Reading(TBin(op, l, r), rest))
            else ReadMore(TBin(op, l, r), rest, OpLevel(op))
  {
    hide ReadExpr;
  }

  lemma ShiftUnfold(ts: seq<Token>, l: Tree, more: seq<Token>)
    requires ReadExpr(ts, 5) == Some(Reading(l, more))
    ensures ReadExpr(ts, 6) == ReadMore(l, more, 6)
  {
    hide ReadMore;
  }

  lemma PrimitiveRead(e: Tree, rest: seq<Token>)
    requires Grammatical(e) && Rule(e) == 0 && Stops(rest, 0)
    ensures ReadExpr(Print(e) + rest, 0) == ReadMore(e, rest, 0)
    decreases e, 0, 1
  {
    hide Print, ReadMore, Grammatical;
    LeafRead(e, rest);
    NoMore(e, rest, 0);
  }

  lemma LeafRead(e: Tree, rest: seq<Token>)
    requires Grammatical(e) && Rule(e) == 0 && Stops(rest, 0)
    ensures ReadPrimitive(Print(e) + rest) == Some(Reading(e, rest))
    decreases e, 0, 0
  {
    hide ReadExpr, ReadArgs, ReadPrimitive, PrintArgs;
    match e
    case TParen(a) => ParenRead(a, rest);
    case TCall(f, args) => CallRead(f, args, rest);
    case TSizeof(x) => SizeofRead(x, rest);
    case _ => WordRead(e, rest);
  }

  lemma WordRead(e: Tree, rest: seq<Token>)
    requires (e.TName? || e.TInt? || e.TNull?) && Stops(rest, 0)
    ensures ReadPrimitive(Print(e) + rest) == Some(Reading(e, rest))
  {
    hide ReadExpr, ReadArgs, OpLevel;
    assert (Print(e) + rest)[1..] == rest;
  }

  lemma SizeofRead(x: Name, rest: seq<Token>)
    ensures ReadPrimitive(Print(TSizeof(x)) + rest) == Some(Reading(TSizeof(x), rest))
  {
    hide ReadExpr, ReadArgs;
    assert (Print(TSizeof(x)) + rest)[4..] == rest;
  }

  lemma ParenRead(a: Tree, rest: seq<Token>)
    requires Grammatical(a)
    ensures ReadPrimitive(Print(TParen(a)) + rest) == Some(Reading(TParen(a), rest))
    decreases a, 20, 0
  {
    hide ReadExpr, ReadArgs, ReadMore, Grammatical;
    var more := [Tok(TC_CLOSE)] + rest;
    assert (Print(TParen(a)) + rest)[1..] == Print(a) + more && more[1..] == rest;
    RuleBound(a);
    ExprRead(a, more, 8);
    NoMore(a, more, 8);
  }

  lemma CallRead(f: Name, args: List<Tree>, rest: seq<Token>)
    requires GrammaticalArgs(args)
    ensures ReadPrimitive(Print(TCall(f, args)) + rest) == Some(Reading(TCall(f, args), rest))
    decreases args, 20, 0
  {
    hide ReadExpr, ReadArgs, PrintArgs, GrammaticalArgs;
    var more := [Tok(TC_CLOSE)] + rest;
    var ts := Print(TCall(f, args)) + rest;
    assert ts[2..] == PrintArgs(args) + more && ts[1] == Tok(TC_OPEN) && more[1..] == rest;
    ArgsRead(args, more);
  }

  lemma {:induction false} ArgsRead(es: List<Tree>, rest: seq<Token>)
    requires GrammaticalArgs(es) && Starts(rest, TC_CLOSE)
    ensures ReadArgs(PrintArgs(es) + rest) == Some(Reading(es, rest))
    decreases es, 1
  {
    hide ReadExpr, ReadMore, Print;
    match es
    case Nil => assert PrintArgs(es) + rest == rest;
    case Cons(e, tail) =>
      var more := if tail.Nil? then rest else [Tok(TC_COMMA)] + (PrintArgs(tail) + rest);
      assert PrintArgs(es) + rest == Print(e) + more;
      FirstToken(e);
      RuleBound(e);
      ExprRead(e, more, 8);
      NoMore(e, more, 8);
      if tail.Cons? {
        assert more[1..] == PrintArgs(tail) + rest;
        ArgsRead(tail, rest);
      }
  }

  lemma RuleBound(e: Tree)
    requires Grammatical(e)
    ensures Rule(e) <= 8
  {
  }

  // ----- conditions -----

  function ReadComp(ts: seq<Token>): (r: Option<Reading<CompTree>>)
    ensures r.Some? ==> |r.value.rest| < |ts|
  {
    var x := ReadExpr(ts, 8);
    if x.None? || x.value.rest == [] || !x.value.rest[0].Tok? || !(12 <= x.value.rest[0].code <= 17) then None
    else
      var y := ReadExpr(x.value.rest[1..], 8);
      if y.None? then None
      else Some(Reading(CompTree(x.value.rest[0].code, x.value.tree, y.value.tree), y.value.rest))
  }

  function ReadAnd(ts: seq<Token>): (r: Option<Reading<List<CompTree>>>)
    ensures r.Some? ==> |r.value.rest| < |ts|
    decreases |ts|
  {
    var c := ReadComp(ts);
    if c.None? then None
    else if Starts(c.value.rest, TC_AND) then
      var more := ReadAnd(c.value.rest[1..]);
      if more.None? then None else Some(Reading(List.Cons(c.value.tree, more.value.tree), more.value.rest))
    else Some(Reading(List.Cons(c.value.tree, List.Nil), c.value.rest))
  }

  function ReadBool(ts: seq<Token>): (r: Option<Reading<BoolTree>>)
    ensures r.Some? ==> |r.value.rest| < |ts|
    decreases |ts|
  {
    var a := ReadAnd(ts);
    if a.None? then None
    else if Starts(a.value.rest, TC_OR) then
      var more := ReadBool(a.value.rest[1..]);
      if more.None? then None else Some(Reading(List.Cons(a.value.tree, more.value.tree), more.value.rest))
    else Some(Reading(List.Cons(a.value.tree, List.Nil), a.value.rest))
  }

  /** A whole expression, up to something that no operator is. */
  lemma WholeRead(e: Tree, rest: seq<Token>)
    requires Grammatical(e) && Stops(rest, 8)
    ensures ReadExpr(Print(e) + rest, 8) == Some(Reading(e, rest))
  {
    hide ReadExpr, ReadMore, Print, Grammatical;
    RuleBound(e);
    ExprRead(e, rest, 8);
    NoMore(e, rest, 8);
  }

  /** How tightly operators bind: * and /, then + and -, then << and >>, then &, then |. */
  function Binding(op: nat): nat {
    match op
    case 6 => 1 case 7 => 1 case 4 => 2 case 5 => 2 case 10 => 3 case 11 => 3 case 8 => 4 case 9 => 5 case _ => 0
  }

  /** Of two operators the first one is applied first, unless the second one binds more tightly; and two shifts do not
      come without parentheses. */
  lemma TwoOperators(a: Name, b: Name, c: Name, op1: nat, op2: nat, e: Tree)
    requires Binding(op1) > 0 && Binding(op2) > 0 && Grammatical(e)
    requires Print(e) == [Id(a), Tok(op1), Id(b), Tok(op2), Id(c)]
    ensures e == if Binding(op1) <= Binding(op2) then TBin(op2, TBin(op1, TName(a), TName(b)), TName(c))
      else TBin(op1, TName(a), TBin(op2, TName(b), TName(c)))
    ensures Binding(op1) != 3 || Binding(op2) != 3
  {
    var ts := Print(e);
    assert ts == ts + [];
    WholeRead(e, []);
    if Binding(op1) == Binding(op2) == 3 {
      ShiftedTwice(a, b, c, op1, op2);
    } else {
      var x, y, z := TName(a), TName(b), TName(c);
      NamesPair(op1, a, b);
      NamesPair(op2, b, c);
      if Binding(op1) <= Binding(op2) {
        var t := TBin(op2, TBin(op1, x, y), z);
        assert Print(t) == Print(TBin(op1, x, y)) + [Tok(op2)] + Print(z) == ts;
        WholeRead(t, []);
      } else {
        var t := TBin(op1, x, TBin(op2, y, z));
        assert Print(t) == Print(x) + [Tok(op1)] + Print(TBin(op2, y, z)) == ts;
        WholeRead(t, []);
      }
    }
  }

  lemma NamesPair(op: nat, a: Name, b: Name)
    requires Binding(op) > 0
    ensures var e := TBin(op, TName(a), TName(b)); Grammatical(e) && Print(e) == [Id(a), Tok(op), Id(b)]
  {
    assert Print(TName(a)) == [Id(a)] && Print(TName(b)) == [Id(b)];
  }

  lemma ShiftedTwice(a: Name, b: Name, c: Name, op1: nat, op2: nat)
    requires Binding(op1) == Binding(op2) == 3
    ensures var r := ReadExpr([Id(a), Tok(op1), Id(b), Tok(op2), Id(c)], 8); r.Some? && r.value.rest != []
  {
    var more := [Tok(op2), Id(c)];
    var ts := [Id(a), Tok(op1), Id(b), Tok(op2), Id(c)];
    var e := TBin(op1, TName(a), TName(b));
    assert ts == [Id(a)] + ([Tok(op1), Id(b)] + more);
    ExprRead(TName(a), [Tok(op1), Id(b)] + more, 5);
    NoMore(TName(a), [Tok(op1), Id(b)] + more, 5);
    assert ([Tok(op1), Id(b)] + more)[1..] == [Id(b)] + more;
    ExprRead(TName(b), more, 5);
    NoMore(TName(b), more, 5);
    assert ReadExpr(ts, 6) == Some(Reading(e, more));
    assert ReadMore(e, more, 7) == Some(Reading(e, more)) && ReadMore(e, more, 8) == Some(Reading(e, more));
    assert ReadExpr(ts, 7) == Some(Reading(e, more));
  }

  lemma CompRead(c: CompTree, rest: seq<Token>)
    requires GrammaticalComp(c) && Stops(rest, 8)
    ensures ReadComp(PrintComp(c) + rest) == Some(Reading(c, rest))
  {
    hide ReadExpr, Print, Grammatical, Rule;
    var more := [Tok(c.rel)] + (Print(c.r) + rest);
    assert PrintComp(c) + rest == Print(c.l) + more && more[1..] == Print(c.r) + rest;
    WholeRead(c.l, more);
    WholeRead(c.r, rest);
  }

  lemma {:induction false} AndRead(cs: List<CompTree>, rest: seq<Token>)
    requires GrammaticalAnd(cs) && Stops(rest, 8) && !Starts(rest, TC_AND)
    ensures ReadAnd(PrintAnd(cs) + rest) == Some(Reading(cs, rest))
    decreases cs
  {
    hide ReadComp, PrintComp, GrammaticalComp;
    var more := if cs.tail.Nil? then rest else [Tok(TC_AND)] + (PrintAnd(cs.tail) + rest);
    assert PrintAnd(cs) + rest == PrintComp(cs.head) + more;
    CompRead(cs.head, more);
    if cs.tail.Cons? {
      assert more[1..] == PrintAnd(cs.tail) + rest;
      AndRead(cs.tail, rest);
    }
  }

  /** A condition ends at a block. */
  lemma {:induction false} BoolRead(ands: BoolTree, rest: seq<Token>)
    requires GrammaticalBool(ands) && Starts(rest, TC_OPEN_BLOCK)
    ensures ReadBool(PrintBool(ands) + rest) == Some(Reading(ands, rest))
    decreases ands
  {
    hide ReadAnd, PrintAnd, GrammaticalAnd;
    var more := if ands.tail.Nil? then rest else [Tok(TC_OR)] + (PrintBool(ands.tail) + rest);
    assert PrintBool(ands) + rest == PrintAnd(ands.head) + more;
    AndRead(ands.head, more);
    if ands.tail.Cons? {
      assert more[1..] == PrintBool(ands.tail) + rest;
      BoolRead(ands.tail, rest);
    }
  }

  // ----- statements -----

  function ReadStmt(ts: seq<Token>): (r: Option<Reading<StmtTree>>)
    ensures r.Some? ==> |r.value.rest| < |ts|
    decreases |ts|, 0
  {
    if Starts(ts, TC_IF) then
      var c := ReadBool(ts[1..]);
      if c.None? then None
      else
        var thn := ReadBlock(c.value.rest);
        if thn.None? then None
        else if !Starts(thn.value.rest, TC_ELSE) then Some(Reading(TIf(c.value.tree, thn.value.tree), thn.value.rest))
        else if Starts(thn.value.rest[1..], TC_IF) then
          var els := ReadStmt(thn.value.rest[1..]);
          if els.None? then None
          else Some(Reading(TElseIf(c.value.tree, thn.value.tree, els.value.tree), els.value.rest))
        else
          var els := ReadBlock(thn.value.rest[1..]);
          if els.None? then None
          else Some(Reading(TIfElse(c.value.tree, thn.value.tree, els.value.tree), els.value.rest))
    else if Starts(ts, TC_WHILE) then
      var c := ReadBool(ts[1..]);
      if c.None? then None
      else
        var body := ReadBlock(c.value.rest);
        if body.None? then None else Some(Reading(TWhile(c.value.tree, body.value.tree), body.value.rest))
    else if Starts(ts, TC_LOOP) then
      var body := ReadBlock(ts[1..]);
      if body.None? then None else Some(Reading(TLoop(body.value.tree), body.value.rest))
    else if Starts(ts, TC_BREAK) then if |ts| < 2 then None else Some(Reading(TBreak, ts[2..]))
    else if Starts(ts, TC_RETURN) then
      if Starts(ts[1..], TC_SEMICOLON) then Some(Reading(TReturn, ts[2..]))
      else
        var e := ReadExpr(ts[1..], 8);
        if e.None? || e.value.rest == [] then None else Some(Reading(TReturnValue(e.value.tree), e.value.rest[1..]))
    else ReadSimple(ts)
  }

  function ReadSimple(ts: seq<Token>): (r: Option<Reading<StmtTree>>)
    ensures r.Some? ==> |r.value.rest| < |ts|
  {
    var l := ReadExpr(ts, 8);
    if l.None? || l.value.rest == [] then None
    else if l.value.rest[0] != Tok(TC_ASSIGN) then Some(Reading(TEval(l.value.tree), l.value.rest[1..]))
    else
      var r := ReadExpr(l.value.rest[1..], 8);
      if r.None? || r.value.rest == [] then None
      else Some(Reading(TAssign(l.value.tree, r.value.tree), r.value.rest[1..]))
  }

  function ReadBlock(ts: seq<Token>): (r: Option<Reading<List<StmtTree>>>)
    ensures r.Some? ==> |r.value.rest| < |ts|
    decreases |ts|, 2
  {
    if ts == [] then None
    else
      var ss := ReadStmts(ts[1..]);
      if ss.None? || ss.value.rest == [] then None else Some(Reading(ss.value.tree, ss.value.rest[1..]))
  }

  function ReadStmts(ts: seq<Token>): (r: Option<Reading<List<StmtTree>>>)
    ensures r.Some? ==> |r.value.rest| <= |ts|
    decreases |ts|, 1
  {
    if Starts(ts, TC_CLOSE_BLOCK) then Some(Reading(List.Nil, ts))
    else
      var s := ReadStmt(ts);
      if s.None? then None
      else
        var more := ReadStmts(s.value.rest);
        if more.None? then None else Some(Reading(List.Cons(s.value.tree, more.value.tree), more.value.rest))
  }

  /** A statement starts with a word of its own, or as an expression does. */
  lemma FirstOfStmt(s: StmtTree)
    requires GrammaticalStmt(s)
    ensures PrintStmt(s) != []
    ensures PrintStmt(s)[0].Tok? ==>
      PrintStmt(s)[0].code !in {TC_CLOSE_BLOCK, TC_ELSE, TC_CONST, TC_LET, TC_SEMICOLON, TC_OPEN_BLOCK}
    ensures s.TAssign? || s.TEval? ==>
      !(PrintStmt(s)[0].Tok? && PrintStmt(s)[0].code in {TC_IF, TC_WHILE, TC_LOOP, TC_BREAK, TC_RETURN})
    ensures Starts(PrintStmt(s), TC_IF) <==> IsIf(s)
  {
    hide PrintBool, PrintBlock, Grammatical, GrammaticalBool, GrammaticalBlock, Rule, Print;
    match s
    case TAssign(l, _) => FirstToken(l);
    case TEval(e) => FirstToken(e);
    case _ =>
  }

  lemma SimpleRead(s: StmtTree, rest: seq<Token>)
    requires GrammaticalStmt(s) && (s.TAssign? || s.TEval?)
    ensures ReadStmt(PrintStmt(s) + rest) == Some(Reading(s, rest))
  {
    hide ReadSimple, PrintStmt, Grammatical, Rule;
    FirstOfStmt(s);
    if s.TEval? { EvalRead(s.e, rest); } else { AssignRead(s.l, s.r, rest); }
  }

  lemma EvalRead(e: Tree, rest: seq<Token>)
    requires Grammatical(e)
    ensures ReadSimple(PrintStmt(TEval(e)) + rest) == Some(Reading(TEval(e), rest))
  {
    hide ReadExpr, Print, Grammatical;
    var end := [Tok(TC_SEMICOLON)] + rest;
    assert PrintStmt(TEval(e)) + rest == Print(e) + end && end[1..] == rest;
    WholeRead(e, end);
  }

  lemma AssignRead(l: Tree, r: Tree, rest: seq<Token>)
    requires Grammatical(l) && Grammatical(r)
    ensures ReadSimple(PrintStmt(TAssign(l, r)) + rest) == Some(Reading(TAssign(l, r), rest))
  {
    hide ReadExpr, Print, Grammatical;
    var end := [Tok(TC_SEMICOLON)] + rest;
    var more := [Tok(TC_ASSIGN)] + (Print(r) + end);
    assert PrintStmt(TAssign(l, r)) + rest == Print(l) + more && more[1..] == Print(r) + end && end[1..] == rest;
    WholeRead(l, more);
    WholeRead(r, end);
  }

  lemma ReturnRead(e: Tree, rest: seq<Token>)
    requires Grammatical(e)
    ensures ReadStmt(PrintStmt(TReturnValue(e)) + rest) == Some(Reading(TReturnValue(e), rest))
  {
    hide ReadExpr, Print, Grammatical, ReadBlock;
    var end := [Tok(TC_SEMICOLON)] + rest;
    assert (PrintStmt(TReturnValue(e)) + rest)[1..] == Print(e) + end && end[1..] == rest;
    FirstToken(e);
    WholeRead(e, end);
  }

  lemma WordStmtRead(s: StmtTree, rest: seq<Token>)
    requires s.TBreak? || s.TReturn?
    ensures ReadStmt(PrintStmt(s) + rest) == Some(Reading(s, rest))
  {
    hide ReadExpr, ReadBlock;
    assert (PrintStmt(s) + rest)[2..] == rest;
  }

  /** Reading the tokens of a statement gives the statement. */
  lemma {:induction false} StmtRead(s: StmtTree, rest: seq<Token>)
    requires GrammaticalStmt(s) && !Starts(rest, TC_ELSE)
    ensures ReadStmt(PrintStmt(s) + rest) == Some(Reading(s, rest))
    decreases s, 1
  {
    hide ReadStmt, PrintStmt, PrintBlock, GrammaticalBlock, GrammaticalBool;
    match s
    case TIf(c, thn) => IfRead(c, thn, rest);
    case TIfElse(c, thn, els) => IfElseRead(c, thn, els, rest);
    case TElseIf(c, thn, els) => ElseIfRead(c, thn, els, rest);
    case TWhile(c, body) => WhileRead(c, body, rest);
    case TLoop(body) => LoopRead(body, rest);
    case TReturnValue(e) => ReturnRead(e, rest);
    case TAssign(_, _) => SimpleRead(s, rest);
    case TEval(_) => SimpleRead(s, rest);
    case _ => WordStmtRead(s, rest);
  }

  /** A condition and a block after it. */
  lemma HeadRead(c: BoolTree, thn: List<StmtTree>, rest: seq<Token>)
    requires GrammaticalBool(c) && GrammaticalBlock(thn)
    ensures ReadBool(PrintBool(c) + (PrintBlock(thn) + rest)) == Some(Reading(c, PrintBlock(thn) + rest))
    ensures ReadBlock(PrintBlock(thn) + rest) == Some(Reading(thn, rest))
    decreases thn, 2
  {
    hide ReadBool, ReadBlock, PrintBool, GrammaticalBool, GrammaticalBlock, ReadStmts, PrintStmts;
    BlockStarts(thn, rest);
    BoolRead(c, PrintBlock(thn) + rest);
    BlockRead(thn, rest);
  }

  lemma BlockStarts(ss: List<StmtTree>, rest: seq<Token>)
    ensures Starts(PrintBlock(ss) + rest, TC_OPEN_BLOCK) && !Starts(PrintBlock(ss) + rest, TC_IF)
    ensures (PrintBlock(ss) + rest)[1..] == PrintStmts(ss) + ([Tok(TC_CLOSE_BLOCK)] + rest)
  {
    hide PrintStmts;
  }

  lemma IfRead(c: BoolTree, thn: List<StmtTree>, rest: seq<Token>)
    requires GrammaticalBool(c) && GrammaticalBlock(thn) && !Starts(rest, TC_ELSE)
    ensures ReadStmt(PrintStmt(TIf(c, thn)) + rest) == Some(Reading(TIf(c, thn), rest))
    decreases thn, 3
  {
    hide ReadBool, ReadBlock, PrintBool, PrintBlock, GrammaticalBool, GrammaticalBlock;
    HeadRead(c, thn, rest);
    Headed(TC_IF, PrintBool(c), PrintBlock(thn), rest);
  }

  lemma IfElseRead(c: BoolTree, thn: List<StmtTree>, els: List<StmtTree>, rest: seq<Token>)
    requires GrammaticalBool(c) && GrammaticalBlock(thn) && GrammaticalBlock(els)
    ensures ReadStmt(PrintStmt(TIfElse(c, thn, els)) + rest) == Some(Reading(TIfElse(c, thn, els), rest))
    decreases TIfElse(c, thn, els), 0
  {
    hide ReadBool, ReadBlock, PrintBool, PrintBlock, GrammaticalBool, GrammaticalBlock;
    var more := [Tok(TC_ELSE)] + (PrintBlock(els) + rest);
    HeadRead(c, thn, more);
    BlockStarts(els, rest);
    BlockRead(els, rest);
    Grouped(PrintBool(c), PrintBlock(thn), PrintBlock(els), rest);
    assert more[1..] == PrintBlock(els) + rest;
  }

  lemma ElseIfRead(c: BoolTree, thn: List<StmtTree>, els: StmtTree, rest: seq<Token>)
    requires GrammaticalBool(c) && GrammaticalBlock(thn) && GrammaticalStmt(els) && IsIf(els) && !Starts(rest, TC_ELSE)
    ensures ReadStmt(PrintStmt(TElseIf(c, thn, els)) + rest) == Some(Reading(TElseIf(c, thn, els), rest))
    decreases TElseIf(c, thn, els), 0
  {
    hide ReadBool, ReadBlock, PrintBool, PrintBlock, GrammaticalBool, GrammaticalBlock, GrammaticalStmt;
    var more := [Tok(TC_ELSE)] + (PrintStmt(els) + rest);
    HeadRead(c, thn, more);
    FirstOfStmt(els);
    StmtRead(els, rest);
    assert more[1..] == PrintStmt(els) + rest && Starts(more[1..], TC_IF);
    ElseIfPrint(c, thn, els, rest);
    ElseIfUnfold(PrintStmt(TElseIf(c, thn, els)) + rest, c, thn, els, more, rest);
  }

  lemma ElseIfPrint(c: BoolTree, thn: List<StmtTree>, els: StmtTree, rest: seq<Token>)
    ensures var ts := PrintStmt(TElseIf(c, thn, els)) + rest;
      Starts(ts, TC_IF) && ts[1..] == PrintBool(c) + (PrintBlock(thn) + ([Tok(TC_ELSE)] + (PrintStmt(els) + rest)))
  {
    hide PrintBool, PrintBlock;
    Grouped(PrintBool(c), PrintBlock(thn), PrintStmt(els), rest);
  }

  lemma Headed(code: nat, c: seq<Token>, body: seq<Token>, rest: seq<Token>)
    ensures var ts := [Tok(code)] + c + body + rest; Starts(ts, code) && ts[1..] == c + (body + rest)
  {
  }

  lemma Grouped(c: seq<Token>, thn: seq<Token>, els: seq<Token>, rest: seq<Token>)
    ensures var ts := [Tok(TC_IF)] + c + thn + [Tok(TC_ELSE)] + els + rest;
      Starts(ts, TC_IF) && ts[1..] == c + (thn + ([Tok(TC_ELSE)] + (els + rest)))
  {
  }

  lemma ElseIfUnfold(ts: seq<Token>, c: BoolTree, thn: List<StmtTree>, els: StmtTree, more: seq<Token>,
                     rest: seq<Token>)
    requires Starts(ts, TC_IF) && ReadBool(ts[1..]).Some? && ReadBool(ts[1..]).value.tree == c
      && ReadBlock(ReadBool(ts[1..]).value.rest) == Some(Reading(thn, more))
    requires Starts(more, TC_ELSE) && Starts(more[1..], TC_IF) && ReadStmt(more[1..]) == Some(Reading(els, rest))
    ensures ReadStmt(ts) == Some(Reading(TElseIf(c, thn, els), rest))
  {
    hide ReadBool, ReadBlock;
  }

  lemma WhileRead(c: BoolTree, body: List<StmtTree>, rest: seq<Token>)
    requires GrammaticalBool(c) && GrammaticalBlock(body)
    ensures ReadStmt(PrintStmt(TWhile(c, body)) + rest) == Some(Reading(TWhile(c, body), rest))
    decreases body, 3
  {
    hide ReadBool, ReadBlock, PrintBool, PrintBlock, GrammaticalBool, GrammaticalBlock;
    HeadRead(c, body, rest);
    Headed(TC_WHILE, PrintBool(c), PrintBlock(body), rest);
  }

  lemma LoopRead(body: List<StmtTree>, rest: seq<Token>)
    requires GrammaticalBlock(body)
    ensures ReadStmt(PrintStmt(TLoop(body)) + rest) == Some(Reading(TLoop(body), rest))
    decreases body, 3
  {
    hide ReadBool, ReadBlock, PrintBlock, GrammaticalBlock;
    BlockRead(body, rest);
    assert (PrintStmt(TLoop(body)) + rest)[1..] == PrintBlock(body) + rest;
  }

  lemma BlockRead(ss: List<StmtTree>, rest: seq<Token>)
    requires GrammaticalBlock(ss)
    ensures ReadBlock(PrintBlock(ss) + rest) == Some(Reading(ss, rest))
    decreases ss, 1
  {
    hide PrintStmts, ReadStmts, GrammaticalBlock;
    var end := [Tok(TC_CLOSE_BLOCK)] + rest;
    BlockStarts(ss, rest);
    assert end[1..] == rest;
    StmtsRead(ss, end);
  }

  lemma {:induction false} StmtsRead(ss: List<StmtTree>, rest: seq<Token>)
    requires GrammaticalBlock(ss) && Starts(rest, TC_CLOSE_BLOCK)
    ensures ReadStmts(PrintStmts(ss) + rest) == Some(Reading(ss, rest))
    decreases ss, 0
  {
    hide ReadStmt, PrintStmt, GrammaticalStmt;
    if ss.Nil? {
      assert PrintStmts(ss) + rest == rest;
    } else {
      var more := PrintStmts(ss.tail) + rest;
      assert PrintStmts(ss) + rest == PrintStmt(ss.head) + more;
      FirstOfStmt(ss.head);
      if ss.tail.Cons? { FirstOfStmt(ss.tail.head); }
      StmtRead(ss.head, more);
      StmtsRead(ss.tail, rest);
    }
  }

  // ----- function bodies -----

  /** A constant, after its keyword. */
  function ReadConst(ts: seq<Token>): (r: Option<Reading<ItemTree>>)
    ensures r.Some? ==> |r.value.rest| < |ts|
  {
    if |ts| < 2 || !ts[0].Id? then None
    else
      var t := ReadType(ts[2..]);
      if t.None? || |t.value.rest| < 3 || !t.value.rest[1].Int? then None
      else Some(Reading(TConst(ts[0].name, t.value.tree, t.value.rest[1].v), t.value.rest[3..]))
  }

  /** A variable, after its keyword. */
  function ReadLet(ts: seq<Token>): (r: Option<Reading<ItemTree>>)
    ensures r.Some? ==> |r.value.rest| < |ts|
  {
    if |ts| < 2 || !ts[0].Id? then None
    else if ts[1] == Tok(TC_COLON) then
      var t := ReadType(ts[2..]);
      if t.None? || t.value.rest == [] then None
      else
        var e := ReadExpr(t.value.rest[1..], 8);
        if e.None? || e.value.rest == [] then None
        else Some(Reading(TLet(ts[0].name, Option.Some(t.value.tree), e.value.tree), e.value.rest[1..]))
    else
      var e := ReadExpr(ts[2..], 8);
      if e.None? || e.value.rest == [] then None
      else Some(Reading(TLet(ts[0].name, None, e.value.tree), e.value.rest[1..]))
  }

  function ReadItem(ts: seq<Token>): (r: Option<Reading<ItemTree>>)
    ensures r.Some? ==> |r.value.rest| < |ts|
  {
    if Starts(ts, TC_CONST) then ReadConst(ts[1..])
    else if Starts(ts, TC_LET) then ReadLet(ts[1..])
    else
      var s := ReadStmt(ts);
      if s.None? then None else Some(Reading(TDo(s.value.tree), s.value.rest))
  }

  function ReadItems(ts: seq<Token>): (r: Option<Reading<List<ItemTree>>>)
    ensures r.Some? ==> |r.value.rest| <= |ts|
    decreases |ts|
  {
    if Starts(ts, TC_CLOSE_BLOCK) then Some(Reading(List.Nil, ts))
    else
      var item := ReadItem(ts);
      if item.None? then None
      else
        var more := ReadItems(item.value.rest);
        if more.None? then None else Some(Reading(List.Cons(item.value.tree, more.value.tree), more.value.rest))
  }

  lemma ConstRead(x: Name, t: TypeTree, v: u64, rest: seq<Token>)
    ensures var ts := PrintItem(TConst(x, t, v)) + rest;
      Starts(ts, TC_CONST) && ReadConst(ts[1..]) == Some(Reading(TConst(x, t, v), rest))
  {
    hide ReadType, PrintType, ReadConst, PrintItem;
    var end := [Tok(TC_ASSIGN), Int(v), Tok(TC_SEMICOLON)] + rest;
    ConstPrint(x, t, v, rest);
    TypeRead(t, end);
    ConstUnfold((PrintItem(TConst(x, t, v)) + rest)[1..], x, t, v, end, rest);
  }

  lemma ConstPrint(x: Name, t: TypeTree, v: u64, rest: seq<Token>)
    ensures var ts := PrintItem(TConst(x, t, v)) + rest;
      |ts| > 2 && ts[0] == Tok(TC_CONST) && ts[1..][0] == Id(x)
      && ts[1..][2..] == PrintType(t) + ([Tok(TC_ASSIGN), Int(v), Tok(TC_SEMICOLON)] + rest)
  {
    hide PrintType;
    var end := [Tok(TC_ASSIGN), Int(v), Tok(TC_SEMICOLON)] + rest;
    assert PrintItem(TConst(x, t, v)) + rest == [Tok(TC_CONST), Id(x), Tok(TC_COLON)] + (PrintType(t) + end);
  }

  lemma ConstUnfold(ts: seq<Token>, x: Name, t: TypeTree, v: u64, end: seq<Token>, rest: seq<Token>)
    requires |ts| > 1 && ts[0] == Id(x) && ReadType(ts[2..]) == Some(Reading(t, end))
    requires end == [Tok(TC_ASSIGN), Int(v), Tok(TC_SEMICOLON)] + rest
    ensures ReadConst(ts) == Some(Reading(TConst(x, t, v), rest))
  {
    hide ReadType;
    assert end[3..] == rest;
  }

  lemma LetRead(x: Name, given: Option<TypeTree>, e: Tree, rest: seq<Token>)
    requires Grammatical(e)
    ensures var ts := PrintItem(TLet(x, given, e)) + rest;
      Starts(ts, TC_LET) && ReadLet(ts[1..]) == Some(Reading(TLet(x, given, e), rest))
  {
    hide ReadType, PrintType, ReadExpr, Print, Grammatical, ReadLet, PrintItem;
    var end := [Tok(TC_SEMICOLON)] + rest;
    assert end[1..] == rest;
    WholeRead(e, end);
    LetPrint(x, given, e, rest);
    var ts := (PrintItem(TLet(x, given, e)) + rest)[1..];
    if given.Some? {
      var more := [Tok(TC_ASSIGN)] + (Print(e) + end);
      assert more[1..] == Print(e) + end;
      TypeRead(given.value, more);
      TypedLet(ts, x, given.value, e, more, end);
    } else {
      UntypedLet(ts, x, e, end);
    }
  }

  lemma LetPrint(x: Name, given: Option<TypeTree>, e: Tree, rest: seq<Token>)
    ensures var ts := PrintItem(TLet(x, given, e)) + rest;
      var end := [Tok(TC_SEMICOLON)] + rest;
      |ts| > 2 && ts[0] == Tok(TC_LET) && ts[1..][0] == Id(x)
      && (if given.None? then ts[1..][1] == Tok(TC_ASSIGN) && ts[1..][2..] == Print(e) + end
          else ts[1..][1] == Tok(TC_COLON)
               && ts[1..][2..] == PrintType(given.value) + ([Tok(TC_ASSIGN)] + (Print(e) + end)))
  {
    hide Print, PrintType;
    var end := [Tok(TC_SEMICOLON)] + rest;
    if given.None? {
      Untyped(x, Print(e), end, rest);
    } else {
      Typed(x, PrintType(given.value), Print(e), end, rest);
    }
  }

  lemma Untyped(x: Name, e: seq<Token>, end: seq<Token>, rest: seq<Token>)
    requires end == [Tok(TC_SEMICOLON)] + rest
    ensures var ts := [Tok(TC_LET), Id(x), Tok(TC_ASSIGN)] + e + [Tok(TC_SEMICOLON)] + rest;
      ts[0] == Tok(TC_LET) && ts[1..][0] == Id(x) && ts[1..][1] == Tok(TC_ASSIGN) && ts[1..][2..] == e + end
  {
  }

  lemma Typed(x: Name, t: seq<Token>, e: seq<Token>, end: seq<Token>, rest: seq<Token>)
    requires end == [Tok(TC_SEMICOLON)] + rest
    ensures var ts := [Tok(TC_LET), Id(x), Tok(TC_COLON)] + t + [Tok(TC_ASSIGN)] + e + [Tok(TC_SEMICOLON)] + rest;
      ts[0] == Tok(TC_LET) && ts[1..][0] == Id(x) && ts[1..][1] == Tok(TC_COLON)
      && ts[1..][2..] == t + ([Tok(TC_ASSIGN)] + (e + end))
  {
  }

  lemma TypedLet(ts: seq<Token>, x: Name, t: TypeTree, e: Tree, more: seq<Token>, end: seq<Token>)
    requires |ts| > 1 && ts[0] == Id(x) && ts[1] == Tok(TC_COLON) && ReadType(ts[2..]) == Some(Reading(t, more))
    requires more != [] && ReadExpr(more[1..], 8) == Some(Reading(e, end)) && end != []
    ensures ReadLet(ts) == Some(Reading(TLet(x, Option.Some(t), e), end[1..]))
  {
    hide ReadType, ReadExpr;
  }

  lemma UntypedLet(ts: seq<Token>, x: Name, e: Tree, end: seq<Token>)
    requires |ts| > 1 && ts[0] == Id(x) && ts[1] == Tok(TC_ASSIGN)
    requires ReadExpr(ts[2..], 8) == Some(Reading(e, end)) && end != []
    ensures ReadLet(ts) == Some(Reading(TLet(x, None, e), end[1..]))
  {
    hide ReadType, ReadExpr;
  }

  lemma ItemRead(item: ItemTree, rest: seq<Token>)
    requires GrammaticalItem(item) && !Starts(rest, TC_ELSE)
    ensures PrintItem(item) != [] && !Starts(PrintItem(item), TC_CLOSE_BLOCK) && !Starts(PrintItem(item), TC_ELSE)
    ensures ReadItem(PrintItem(item) + rest) == Some(Reading(item, rest))
  {
    hide ReadConst, ReadLet, ReadStmt, PrintStmt, GrammaticalStmt, PrintType, Print, Grammatical;
    match item
    case TConst(x, t, v) => ConstRead(x, t, v, rest);
    case TLet(x, given, e) => LetRead(x, given, e, rest);
    case TDo(s) =>
      FirstOfStmt(s);
      StmtRead(s, rest);
  }

  lemma {:induction false} ItemsRead(items: List<ItemTree>, rest: seq<Token>)
    requires GrammaticalItems(items) && Starts(rest, TC_CLOSE_BLOCK)
    ensures ReadItems(PrintItems(items) + rest) == Some(Reading(items, rest))
    ensures !Starts(PrintItems(items) + rest, TC_ELSE)
    decreases items
  {
    hide ReadItem, PrintItem, GrammaticalItem;
    if items.Nil? {
      assert PrintItems(items) + rest == rest;
    } else {
      var more := PrintItems(items.tail) + rest;
      assert PrintItems(items) + rest == PrintItem(items.head) + more;
      ItemsRead(items.tail, rest);
      ItemRead(items.head, more);
    }
  }

  // ----- declarations -----

  function ReadParams(ts: seq<Token>, end: nat): (r: Option<Reading<List<Param>>>)
    ensures r.Some? ==> |r.value.rest| <= |ts|
    decreases |ts|
  {
    if Starts(ts, end) then Some(Reading(List.Nil, ts))
    else if |ts| < 2 || !ts[0].Id? then None
    else
      var t := ReadType(ts[2..]);
      if t.None? then None
      else if Starts(t.value.rest, TC_COMMA) then
        var more := ReadParams(t.value.rest[1..], end);
        if more.None? then None
        else Some(Reading(List.Cons(Param(ts[0].name, t.value.tree), more.value.tree), more.value.rest))
      else Some(Reading(List.Cons(Param(ts[0].name, t.value.tree), List.Nil), t.value.rest))
  }

  lemma {:induction false} ParamsRead(ps: List<Param>, rest: seq<Token>, end: nat)
    requires Starts(rest, end) && end != TC_COMMA
    ensures ReadParams(PrintParams(ps) + rest, end) == Some(Reading(ps, rest))
    decreases ps
  {
    hide ReadType, PrintType;
    match ps
    case Nil => assert PrintParams(ps) + rest == rest;
    case Cons(p, tail) =>
      var more := if tail.Nil? then rest else [Tok(TC_COMMA)] + (PrintParams(tail) + rest);
      var ts := PrintParams(ps) + rest;
      assert ts == [Id(p.name), Tok(TC_COLON)] + (PrintType(p.ty) + more);
      assert ts[2..] == PrintType(p.ty) + more;
      TypeRead(p.ty, more);
      if tail.Cons? {
        assert more[1..] == PrintParams(tail) + rest;
        ParamsRead(tail, rest, end);
      }
  }

  function ReadBytes(ts: seq<Token>): (r: Option<Reading<List<u64>>>)
    ensures r.Some? ==> |r.value.rest| <= |ts|
    decreases |ts|
  {
    if Starts(ts, TC_CLOSE_BRACKET) then Some(Reading(List.Nil, ts))
    else if ts == [] || !ts[0].Int? then None
    else if Starts(ts[1..], TC_COMMA) then
      var more := ReadBytes(ts[2..]);
      if more.None? then None else Some(Reading(List.Cons(ts[0].v, more.value.tree), more.value.rest))
    else Some(Reading(List.Cons(ts[0].v, List.Nil), ts[1..]))
  }

  lemma {:induction false} BytesRead(bs: List<u64>, rest: seq<Token>)
    requires Starts(rest, TC_CLOSE_BRACKET)
    ensures ReadBytes(PrintBytes(bs) + rest) == Some(Reading(bs, rest))
    decreases bs
  {
    match bs
    case Nil => assert PrintBytes(bs) + rest == rest;
    case Cons(b, Nil) => assert (PrintBytes(bs) + rest)[1..] == rest;
    case Cons(b, tail) =>
      var ts := PrintBytes(bs) + rest;
      assert ts == [Int(b), Tok(TC_COMMA)] + (PrintBytes(tail) + rest);
      assert ts[2..] == PrintBytes(tail) + rest;
      BytesRead(tail, rest);
  }

  function ReadBody(ts: seq<Token>): (r: Option<Reading<Body>>)
    ensures r.Some? ==> |r.value.rest| < |ts|
  {
    if Starts(ts, TC_SEMICOLON) then Some(Reading(Declared, ts[1..]))
    else if Starts(ts, TC_OPEN_BRACKET) then
      var bs := ReadBytes(ts[1..]);
      if bs.None? || bs.value.rest == [] then None else Some(Reading(Asm(bs.value.tree), bs.value.rest[1..]))
    else if Starts(ts, TC_OPEN_BLOCK) then
      var items := ReadItems(ts[1..]);
      if items.None? || items.value.rest == [] then None
      else Some(Reading(Items(items.value.tree), items.value.rest[1..]))
    else None
  }

  lemma BodyRead(b: Body, rest: seq<Token>)
    requires b.Items? ==> GrammaticalItems(b.items)
    ensures ReadBody(PrintBody(b) + rest) == Some(Reading(b, rest))
    ensures !Starts(PrintBody(b) + rest, TC_ARROW)
  {
    hide ReadItems, ReadBytes, PrintItems, PrintBytes, GrammaticalItems;
    match b {
      case Declared => assert (PrintBody(b) + rest)[1..] == rest;
      case Asm(bs) =>
        Enclosed(TC_OPEN_BRACKET, PrintBytes(bs), TC_CLOSE_BRACKET, rest);
        BytesRead(bs, [Tok(TC_CLOSE_BRACKET)] + rest);
      case Items(items) =>
        Enclosed(TC_OPEN_BLOCK, PrintItems(items), TC_CLOSE_BLOCK, rest);
        ItemsRead(items, [Tok(TC_CLOSE_BLOCK)] + rest);
    }
  }

  lemma Enclosed(open: nat, s: seq<Token>, close: nat, rest: seq<Token>)
    ensures var ts := [Tok(open)] + s + [Tok(close)] + rest;
      ts[0] == Tok(open) && ts[1..] == s + ([Tok(close)] + rest) && ([Tok(close)] + rest)[1..] == rest
  {
  }

  /** A function, after its keyword. */
  function ReadFn(ts: seq<Token>): (r: Option<Reading<Decl>>)
    ensures r.Some? ==> |r.value.rest| < |ts|
  {
    if |ts| < 2 || !ts[0].Id? then None
    else
      var ps := ReadParams(ts[2..], TC_CLOSE);
      if ps.None? || ps.value.rest == [] then None
      else
        var more := ps.value.rest[1..];
        if Starts(more, TC_ARROW) then
          var t := ReadType(more[1..]);
          if t.None? then None
          else
            var b := ReadBody(t.value.rest);
            if b.None? then None
            else Some(Reading(DFn(ts[0].name, ps.value.tree, Option.Some(t.value.tree), b.value.tree), b.value.rest))
        else
          var b := ReadBody(more);
          if b.None? then None
          else Some(Reading(DFn(ts[0].name, ps.value.tree, None, b.value.tree), b.value.rest))
  }

  lemma FnRead(f: Name, ps: List<Param>, ret: Option<TypeTree>, b: Body, rest: seq<Token>)
    requires b.Items? ==> GrammaticalItems(b.items)
    ensures var ts := PrintDecl(DFn(f, ps, ret, b)) + rest;
      Starts(ts, TC_FN) && ReadFn(ts[1..]) == Some(Reading(DFn(f, ps, ret, b), rest))
  {
    hide ReadType, PrintType, ReadBody, PrintBody, ReadParams, PrintParams, GrammaticalItems, ReadFn, PrintDecl,
      PrintRet;
    var body := PrintBody(b) + rest;
    var more := PrintRet(ret) + body;
    var end := [Tok(TC_CLOSE)] + more;
    FnPrint(f, ps, ret, b, rest);
    assert end[1..] == more;
    ParamsRead(ps, end, TC_CLOSE);
    BodyRead(b, rest);
    RetRead(ret, body);
    FnUnfold((PrintDecl(DFn(f, ps, ret, b)) + rest)[1..], f, ps, ret, b, end, body, rest);
  }

  lemma FnPrint(f: Name, ps: List<Param>, ret: Option<TypeTree>, b: Body, rest: seq<Token>)
    ensures var ts := PrintDecl(DFn(f, ps, ret, b)) + rest;
      |ts| > 2 && ts[0] == Tok(TC_FN) && ts[1..][0] == Id(f)
      && ts[1..][2..] == PrintParams(ps) + ([Tok(TC_CLOSE)] + (PrintRet(ret) + (PrintBody(b) + rest)))
  {
    hide PrintBody, PrintParams, PrintRet;
    var end := [Tok(TC_CLOSE)] + (PrintRet(ret) + (PrintBody(b) + rest));
    assert PrintDecl(DFn(f, ps, ret, b)) + rest == [Tok(TC_FN), Id(f), Tok(TC_OPEN)] + (PrintParams(ps) + end);
  }

  /** The result type of a function, if it has one. */
  predicate RetIs(ret: Option<TypeTree>, more: seq<Token>, body: seq<Token>) {
    if ret.None? then more == body && !Starts(more, TC_ARROW)
    else Starts(more, TC_ARROW) && ReadType(more[1..]) == Some(Reading(ret.value, body))
  }

  lemma RetRead(ret: Option<TypeTree>, body: seq<Token>)
    requires !Starts(body, TC_ARROW)
    ensures RetIs(ret, PrintRet(ret) + body, body)
  {
    hide ReadType, PrintType;
    var more := PrintRet(ret) + body;
    if ret.Some? {
      assert more[1..] == PrintType(ret.value) + body;
      TypeRead(ret.value, body);
    } else {
      assert more == body;
    }
  }

  lemma FnUnfold(ts: seq<Token>, f: Name, ps: List<Param>, ret: Option<TypeTree>, b: Body, end: seq<Token>,
                 body: seq<Token>, rest: seq<Token>)
    requires |ts| > 1 && ts[0] == Id(f) && ReadParams(ts[2..], TC_CLOSE) == Some(Reading(ps, end)) && end != []
    requires RetIs(ret, end[1..], body) && ReadBody(body) == Some(Reading(b, rest))
    ensures ReadFn(ts) == Some(Reading(DFn(f, ps, ret, b), rest))
  {
    hide ReadType, ReadBody, ReadParams;
  }

  function ReadDecl(ts: seq<Token>): (r: Option<Reading<Decl>>)
    ensures r.Some? ==> |r.value.rest| < |ts|
  {
    if Starts(ts, TC_FN) then ReadFn(ts[1..])
    else if Starts(ts, TC_CONST) then
      var c := ReadConst(ts[1..]);
      if c.None? || !c.value.tree.TConst? then None
      else Some(Reading(DConst(c.value.tree.name, c.value.tree.ty, c.value.tree.v), c.value.rest))
    else if Starts(ts, TC_STRUCT) then
      if |ts| < 3 || !ts[1].Id? then None
      else
        var ps := ReadParams(ts[3..], TC_CLOSE_BLOCK);
        if ps.None? || ps.value.rest == [] then None
        else Some(Reading(DStruct(ts[1].name, ps.value.tree), ps.value.rest[1..]))
    else if Starts(ts, TC_STATIC) then
      if |ts| < 4 || !ts[1].Id? then None
      else
        var bs := ReadBytes(ts[4..]);
        if bs.None? || |bs.value.rest| < 2 then None
        else Some(Reading(DStatic(ts[1].name, bs.value.tree), bs.value.rest[2..]))
    else None
  }

  lemma DeclRead(d: Decl, rest: seq<Token>)
    requires GrammaticalDecl(d)
    ensures ReadDecl(PrintDecl(d) + rest) == Some(Reading(d, rest))
  {
    hide ReadFn, ReadConst, ReadDecl, PrintDecl, GrammaticalItems;
    match d {
      case DFn(f, ps, ret, b) =>
        FnRead(f, ps, ret, b, rest);
        FnDecl(PrintDecl(d) + rest, d, rest);
      case DConst(x, t, v) => ConstDecl(x, t, v, rest);
      case DStruct(x, fields) => StructRead(x, fields, rest);
      case DStatic(x, bs) => StaticRead(x, bs, rest);
    }
  }

  lemma FnDecl(ts: seq<Token>, d: Decl, rest: seq<Token>)
    requires Starts(ts, TC_FN) && ReadFn(ts[1..]) == Some(Reading(d, rest))
    ensures ReadDecl(ts) == Some(Reading(d, rest))
  {
    hide ReadFn;
  }

  lemma ConstDecl(x: Name, t: TypeTree, v: u64, rest: seq<Token>)
    ensures ReadDecl(PrintDecl(DConst(x, t, v)) + rest) == Some(Reading(DConst(x, t, v), rest))
  {
    hide ReadConst, PrintItem;
    ConstRead(x, t, v, rest);
  }

  lemma StructRead(x: Name, fields: List<Param>, rest: seq<Token>)
    ensures ReadDecl(PrintDecl(DStruct(x, fields)) + rest) == Some(Reading(DStruct(x, fields), rest))
  {
    hide ReadParams, PrintParams, ReadDecl, PrintDecl;
    var end := [Tok(TC_CLOSE_BLOCK)] + rest;
    StructPrint(x, fields, rest);
    ParamsRead(fields, end, TC_CLOSE_BLOCK);
    StructUnfold(PrintDecl(DStruct(x, fields)) + rest, x, fields, end, rest);
  }

  lemma StructPrint(x: Name, fields: List<Param>, rest: seq<Token>)
    ensures var ts := PrintDecl(DStruct(x, fields)) + rest;
      |ts| > 2 && ts[0] == Tok(TC_STRUCT) && ts[1] == Id(x)
      && ts[3..] == PrintParams(fields) + ([Tok(TC_CLOSE_BLOCK)] + rest)
  {
    hide PrintParams;
    var end := [Tok(TC_CLOSE_BLOCK)] + rest;
    assert PrintDecl(DStruct(x, fields)) + rest
        == [Tok(TC_STRUCT), Id(x), Tok(TC_OPEN_BLOCK)] + (PrintParams(fields) + end);
  }

  lemma StructUnfold(ts: seq<Token>, x: Name, fields: List<Param>, end: seq<Token>, rest: seq<Token>)
    requires |ts| > 2 && ts[0] == Tok(TC_STRUCT) && ts[1] == Id(x)
    requires ReadParams(ts[3..], TC_CLOSE_BLOCK) == Some(Reading(fields, end)) && end == [Tok(TC_CLOSE_BLOCK)] + rest
    ensures ReadDecl(ts) == Some(Reading(DStruct(x, fields), rest))
  {
    hide ReadParams;
    assert end[1..] == rest;
  }

  lemma StaticRead(x: Name, bs: List<u64>, rest: seq<Token>)
    ensures ReadDecl(PrintDecl(DStatic(x, bs)) + rest) == Some(Reading(DStatic(x, bs), rest))
  {
    hide ReadBytes, PrintBytes, ReadDecl, PrintDecl;
    var end := [Tok(TC_CLOSE_BRACKET), Tok(TC_SEMICOLON)] + rest;
    StaticPrint(x, bs, rest);
    BytesRead(bs, end);
    StaticUnfold(PrintDecl(DStatic(x, bs)) + rest, x, bs, end, rest);
  }

  lemma StaticPrint(x: Name, bs: List<u64>, rest: seq<Token>)
    ensures var ts := PrintDecl(DStatic(x, bs)) + rest;
      |ts| > 3 && ts[0] == Tok(TC_STATIC) && ts[1] == Id(x)
      && ts[4..] == PrintBytes(bs) + ([Tok(TC_CLOSE_BRACKET), Tok(TC_SEMICOLON)] + rest)
  {
    hide PrintBytes;
    var end := [Tok(TC_CLOSE_BRACKET), Tok(TC_SEMICOLON)] + rest;
    assert PrintDecl(DStatic(x, bs)) + rest
        == [Tok(TC_STATIC), Id(x), Tok(TC_ASSIGN), Tok(TC_OPEN_BRACKET)] + (PrintBytes(bs) + end);
  }

  lemma StaticUnfold(ts: seq<Token>, x: Name, bs: List<u64>, end: seq<Token>, rest: seq<Token>)
    requires |ts| > 3 && ts[0] == Tok(TC_STATIC) && ts[1] == Id(x)
    requires ReadBytes(ts[4..]) == Some(Reading(bs, end)) && end == [Tok(TC_CLOSE_BRACKET), Tok(TC_SEMICOLON)] + rest
    ensures ReadDecl(ts) == Some(Reading(DStatic(x, bs), rest))
  {
    hide ReadBytes;
    assert end[2..] == rest;
  }

  /** Declarations as far as there are some. */
  function ReadDecls(ts: seq<Token>): (r: Option<Reading<List<Decl>>>)
    ensures r.Some? ==> |r.value.rest| <= |ts|
    decreases |ts|
  {
    if ts == [] || Starts(ts, TC_END) then Some(Reading(List.Nil, ts))
    else
      var d := ReadDecl(ts);
      if d.None? then None
      else
        var more := ReadDecls(d.value.rest);
        if more.None? then None else Some(Reading(List.Cons(d.value.tree, more.value.tree), more.value.rest))
  }

  lemma FirstOfDecl(d: Decl)
    ensures PrintDecl(d) != [] && !Starts(PrintDecl(d), TC_END)
  {
    hide PrintParams, PrintBytes, PrintType, PrintBody, PrintRet;
  }

  lemma {:induction false} DeclsRead(ds: List<Decl>, rest: seq<Token>)
    requires GrammaticalDecls(ds) && (rest == [] || Starts(rest, TC_END))
    ensures ReadDecls(PrintDecls(ds) + rest) == Some(Reading(ds, rest))
    decreases ds
  {
    hide ReadDecl, GrammaticalDecl, PrintDecl;
    if ds.Nil? {
      assert PrintDecls(ds) + rest == rest;
    } else {
      var more := PrintDecls(ds.tail) + rest;
      assert PrintDecls(ds) + rest == PrintDecl(ds.head) + more;
      FirstOfDecl(ds.head);
      DeclRead(ds.head, more);
      DeclsRead(ds.tail, rest);
    }
  }

  /** Tokens are those of one program at most: what the compiler accepts has one meaning. */
  lemma OneProgram(tokens: seq<Token>, n: nat, ds: List<Decl>, n1: nat, ds1: List<Decl>)
    requires ProgramRead(tokens, n, ds) && ProgramRead(tokens, n1, ds1)
    ensures n1 == n && ds1 == ds
  {
    hide ReadDecls, PrintDecls, GrammaticalDecls;
    assert tokens == tokens[..n] + tokens[n..] && tokens == tokens[..n1] + tokens[n1..];
    DeclsRead(ds, tokens[n..]);
    DeclsRead(ds1, tokens[n1..]);
  }
}
