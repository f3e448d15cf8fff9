/** Criteria expressions: tokens, syntax trees, and printing a tree back to tokens. */
module Ast {
  import opened Base

  datatype Literal = Literal(value: string, kind: string, quote: string)

  /** The tokens of an expression; a parenthesized block is one token.  `Bad` stands for
      text that no token matches. */
  datatype Token =
    | LiteralToken(literal: Literal)
    | SelectorToken(name: string)
    | UnaryToken(op: string)
    | BinaryToken(op: string)
    | LogicalToken(op: string)
    | Block(inner: seq<Token>)
    | Bad

  datatype Expr =
    | Lit(literal: Literal)
    | Sel(name: string)
    | Un(uop: string, ux: Option<Expr>)
    | Grp(gx: Expr)
    | Bin(x: Option<Expr>, op: string, y: Option<Expr>)

  predicate IsLogical(op: string) {
    op == "&&" || op == "||"
  }

  predicate IsUnary(op: string) {
    op in {"!", "not", "defined"}
  }

  /** The token of an operator between two operands: a unary one is accepted there as well. */
  function OpToken(op: string): Token {
    if IsLogical(op) then LogicalToken(op) else if IsUnary(op) then UnaryToken(op) else BinaryToken(op)
  }

  /** In-order printing; the empty unary operator prints as nothing. */
  function Print(e: Expr): seq<Token> {
    match e
    case Lit(l) => [LiteralToken(l)]
    case Sel(n) => [SelectorToken(n)]
    case Un(op, x) => (if op == "" then [] else [UnaryToken(op)]) + PrintSome(x)
    case Grp(x) => [Block(Print(x))]
    case Bin(x, op, y) => PrintSome(x) + [OpToken(op)] + PrintSome(y)
  }

  function PrintSome(x: Option<Expr>): seq<Token> {
    match x
    case None => []
    case Some(e) => Print(e)
  }
}

/** The parser: right recursive, with a rotation that gives relational operators precedence
    over a logical operator to their right. */
module Parser {
  import opened Base
  import opened Ast

  /** The number of tokens, those in blocks included. */
  function Size(tokens: seq<Token>): nat {
    if tokens == [] then 0
    else (if tokens[0].Block? then Size(tokens[0].inner) else 0) + 1 + Size(tokens[1..])
  }

  datatype Operand = NoOperand | Operand(x: Option<Expr>, rest: seq<Token>)

  /** The operand at the start of the tokens; none before an operator or at the end. */
  function ParseOperand(tokens: seq<Token>): (r: Operand)
    ensures r.Operand? ==> Size(r.rest) <= Size(tokens) && (r.x.Some? ==> !r.x.value.Bin?)
    decreases Size(tokens), 0
  {
    if tokens == [] then Operand(None, tokens)
    else
      match tokens[0]
      case LiteralToken(l) => Operand(Some(Lit(l)), tokens[1..])
      case SelectorToken(n) => Operand(Some(Sel(n)), tokens[1..])
      case UnaryToken(op) =>
        (match ParseOperand(tokens[1..])
         case NoOperand => NoOperand
         case Operand(x, rest) => Operand(Some(Un(op, x)), rest))
      case BinaryToken(_) => Operand(None, tokens)
      case LogicalToken(_) => Operand(None, tokens)
      case Block(inner) =>
        (match ParseCriteria(inner)
         case None => NoOperand
         case Some(e) => Operand(Some(Grp(e)), tokens[1..]))
      case Bad => NoOperand
  }

  /** The operator at the start of the tokens; empty when there is none. */
  function OperatorOf(tokens: seq<Token>): string {
    if tokens != [] && (tokens[0].UnaryToken? || tokens[0].BinaryToken? || tokens[0].LogicalToken?)
    then tokens[0].op else ""
  }

  /** What the right side of an operator becomes, given the chain parsed there. */
  function RightSide(e: Expr): Option<Expr>
    requires e.Bin?
  {
    if e.op == "" && e.y.None? then e.x
    else if e.x.Some? then Some(e)
    else None
  }

  /** A chain of operands and operators; always a binary node, possibly without operator. */
  function ParseChain(tokens: seq<Token>): (r: Option<Expr>)
    ensures r.Some? ==> r.value.Bin? && (r.value.op == "" && r.value.x.Some? ==> !r.value.x.value.Bin?)
    decreases Size(tokens), 1
  {
    match ParseOperand(tokens)
    case NoOperand => None
    case Operand(x, rest) =>
      var op := OperatorOf(rest);
      if op == "" then Some(Bin(x, "", None))
      else
        match ParseChain(rest[1..])
        case None => None
        case Some(e) => Some(Normalize(Bin(x, op, RightSide(e))))
  }

  /** Rotates a relational operator below the operator to its right. */
  function Normalize(b: Expr): (r: Expr)
    requires b.Bin?
    ensures r.Bin?
  {
    if IsLogical(b.op) then b
    else
      match b.y
      case Some(Bin(yx, yop, yy)) =>
        var rest := if yy.Some? && yy.value.Bin? then Some(Normalize(yy.value)) else yy;
        Bin(Some(Bin(b.x, b.op, yx)), yop, rest)
      case _ => b
  }

  /** A single operand is wrapped in the empty unary operator, unless it is unary itself. */
  function Root(e: Expr): Expr {
    if e.Un? || e.Bin? then e else Un("", Some(e))
  }

  function ParseCriteria(tokens: seq<Token>): Option<Expr>
    decreases Size(tokens), 2
  {
    match ParseChain(tokens)
    case None => None
    case Some(e) => if e.op == "" && e.y.None? && e.x.Some? then Some(Root(e.x.value)) else Some(e)
  }

  // ---- Complete token sequences ----

  predicate IsOperator(t: Token) {
    (t.UnaryToken? || t.BinaryToken? || t.LogicalToken?) && t.op != "" && t == OpToken(t.op)
  }

  /** The number of tokens of the operand at the start: unary operators before a literal, a
      selector or a complete block. */
  function OperandLength(tokens: seq<Token>): (n: Option<nat>)
    ensures n.Some? ==> 0 < n.value <= |tokens|
    decreases tokens, 0
  {
    if tokens == [] then None
    else
      match tokens[0]
      case LiteralToken(_) => Some(1)
      case SelectorToken(_) => Some(1)
      case UnaryToken(op) =>
        var n := OperandLength(tokens[1..]);
        if n.Some? && op != "" then Some(1 + n.value) else None
      case Block(inner) => if Complete(inner) then Some(1) else None
      case _ => None
  }

  /** Operands separated by operators. */
  predicate Complete(tokens: seq<Token>)
    decreases tokens, 1
  {
    var n := OperandLength(tokens);
    && n.Some?
    && (n.value == |tokens| || (IsOperator(tokens[n.value]) && Complete(tokens[n.value + 1..])))
  }

  // ---- Canonical trees ----

  predicate OperandOk(e: Expr)
    decreases e, 0
  {
    match e
    case Lit(_) => true
    case Sel(_) => true
    case Un(op, x) => op != "" && x.Some? && OperandOk(x.value)
    case Grp(x) => RootOk(x)
    case Bin(_, _, _) => false
  }

  predicate RootOk(e: Expr)
    decreases e, 3
  {
    if e.Un? && e.uop == "" then e.ux.Some? && !e.ux.value.Un? && OperandOk(e.ux.value)
    else if e.Un? then OperandOk(e)
    else ChainOk(e)
  }

  predicate IsRelational(op: string) {
    op != "" && !IsLogical(op)
  }

  /** Operands joined by relational operators, nested to the right. */
  predicate SegmentOk(e: Expr)
    decreases e, 1
  {
    OperandOk(e)
    || (e.Bin? && e.x.Some? && e.y.Some? && IsRelational(e.op) && OperandOk(e.x.value) && SegmentOk(e.y.value))
  }

  /** A segment before a logical operator and a chain, or before a relational operator and
      the last operand. */
  predicate ChainOk(e: Expr)
    decreases e, 2
  {
    && e.Bin? && e.x.Some? && e.y.Some? && e.op != "" && SegmentOk(e.x.value)
    && (OperandOk(e.y.value) || (IsLogical(e.op) && ChainOk(e.y.value)))
  }

  // ---- Printing what was parsed ----

  lemma {:induction false} NormalizeKeepsOrder(b: Expr)
    requires b.Bin?
    ensures Print(Normalize(b)) == Print(b)
  {
    if !IsLogical(b.op) {
      match b.y
      case Some(Bin(yx, yop, yy)) =>
        if yy.Some? && yy.value.Bin? {
          NormalizeKeepsOrder(yy.value);
        }
        var rest := if yy.Some? && yy.value.Bin? then Some(Normalize(yy.value)) else yy;
        assert PrintSome(rest) == PrintSome(yy);
        var a, o, p := PrintSome(b.x), [OpToken(b.op)], [OpToken(yop)];
        assert Print(b) == a + o + Print(b.y.value);
        assert PrintSome(Some(Bin(b.x, b.op, yx))) == a + o + PrintSome(yx);
        assert Print(Normalize(b)) == (a + o + PrintSome(yx)) + p + PrintSome(rest);
        assert (a + o + PrintSome(yx)) + p + PrintSome(yy) == a + o + (PrintSome(yx) + p + PrintSome(yy));
      case _ =>
    }
  }

  lemma NormalizeIsDone(e: Expr)
    requires ChainOk(e)
    ensures Normalize(e) == e
  {
  }

  lemma NormalizeIsOk(x: Expr, op: string, y: Expr)
    requires OperandOk(x) && op != "" && (OperandOk(y) || ChainOk(y))
    ensures ChainOk(Normalize(Bin(Some(x), op, Some(y))))
  {
    if !IsLogical(op) && y.Bin? {
      if y.y.value.Bin? {
        NormalizeIsDone(y.y.value);
      }
    }
  }

  lemma {:induction false} OperandIsKept(tokens: seq<Token>)
    requires OperandLength(tokens).Some?
    ensures var n := OperandLength(tokens).value; var r := ParseOperand(tokens);
      && r.Operand? && r.x.Some? && r.rest == tokens[n..]
      && Print(r.x.value) == tokens[..n] && OperandOk(r.x.value)
    decreases tokens, 0
  {
    assert tokens[..1] == [tokens[0]];
    match tokens[0]
    case UnaryToken(op) =>
      OperandIsKept(tokens[1..]);
      var n := OperandLength(tokens).value;
      assert tokens[1..][n - 1..] == tokens[n..];
      assert tokens[..n] == [tokens[0]] + tokens[1..][..n - 1];
    case Block(inner) =>
      CriteriaAreKept(inner);
    case _ =>
  }

  lemma {:induction false} ChainIsKept(tokens: seq<Token>)
    requires Complete(tokens)
    ensures var r := ParseChain(tokens);
      && r.Some?
      && (if r.value.op == "" then r.value.y.None? && r.value.x.Some? && OperandOk(r.value.x.value)
                                   && Print(r.value.x.value) == tokens
          else ChainOk(r.value) && Print(r.value) == tokens)
    decreases tokens, 1
  {
    var n := OperandLength(tokens).value;
    OperandIsKept(tokens);
    var x := ParseOperand(tokens).x.value;
    if n < |tokens| {
      assert tokens[n..][1..] == tokens[n + 1..];
      ChainIsKept(tokens[n + 1..]);
      ChainStep(tokens, n, x, ParseChain(tokens[n + 1..]).value);
    } else {
      assert tokens[..n] == tokens && tokens[n..] == [];
    }
  }

  /** The right side is an operand or a chain that prints as the remaining tokens. */
  lemma RightIsOk(e: Expr, rest: seq<Token>)
    requires e.Bin?
    requires if e.op == "" then e.y.None? && e.x.Some? && OperandOk(e.x.value) && Print(e.x.value) == rest
             else ChainOk(e) && Print(e) == rest
    ensures var y := RightSide(e);
      y.Some? && (OperandOk(y.value) || ChainOk(y.value)) && Print(y.value) == rest
  {
  }

  lemma LinkPrints(x: Expr, y: Expr, tokens: seq<Token>, n: nat)
    requires n < |tokens| && IsOperator(tokens[n]) && Print(x) == tokens[..n] && Print(y) == tokens[n + 1..]
    ensures Print(Bin(Some(x), tokens[n].op, Some(y))) == tokens
  {
    assert OpToken(tokens[n].op) == tokens[n];
    assert tokens == tokens[..n] + [tokens[n]] + tokens[n + 1..];
  }

  lemma ChainStep(tokens: seq<Token>, n: nat, x: Expr, e: Expr)
    requires n < |tokens| && IsOperator(tokens[n]) && OperandOk(x) && Print(x) == tokens[..n]
    requires e.Bin?
    requires if e.op == "" then e.y.None? && e.x.Some? && OperandOk(e.x.value) && Print(e.x.value) == tokens[n + 1..]
             else ChainOk(e) && Print(e) == tokens[n + 1..]
    ensures var b := Normalize(Bin(Some(x), tokens[n].op, RightSide(e)));
      ChainOk(b) && Print(b) == tokens
  {
    RightIsOk(e, tokens[n + 1..]);
    var y := RightSide(e).value;
    LinkPrints(x, y, tokens, n);
    NormalizeKeepsOrder(Bin(Some(x), tokens[n].op, Some(y)));
    NormalizeIsOk(x, tokens[n].op, y);
  }

  /** Every complete token sequence is parsed, into a canonical tree that prints as exactly
      these tokens. */
  lemma {:induction false} CriteriaAreKept(tokens: seq<Token>)
    requires Complete(tokens)
    ensures var r := ParseCriteria(tokens);
      r.Some? && RootOk(r.value) && Print(r.value) == tokens
    decreases tokens, 2
  {
    ChainIsKept(tokens);
    var e := ParseChain(tokens).value;
    if e.op == "" && !e.x.value.Un? {
      assert [] + Print(e.x.value) == Print(e.x.value);
    }
  }

  // ---- Parsing what was printed ----

  lemma {:induction false} PrintedOperand(e: Expr, rest: seq<Token>)
    requires OperandOk(e)
    ensures ParseOperand(Print(e) + rest) == Operand(Some(e), rest)
    decreases e, 0
  {
    match e
    case Lit(l) =>
      assert ([LiteralToken(l)] + rest)[1..] == rest;
    case Sel(n) =>
      assert ([SelectorToken(n)] + rest)[1..] == rest;
    case Un(op, x) =>
      PrintedOperand(x.value, rest);
      assert Print(e) == [UnaryToken(op)] + Print(x.value);
      PrintedUnary(op, x.value, Print(x.value), rest);
    case Grp(x) =>
      PrintedRoot(x);
      assert ([Block(Print(x))] + rest)[1..] == rest;
  }

  lemma PrintedUnary(op: string, x: Expr, printed: seq<Token>, rest: seq<Token>)
    requires ParseOperand(printed + rest) == Operand(Some(x), rest)
    ensures ParseOperand([UnaryToken(op)] + printed + rest) == Operand(Some(Un(op, Some(x))), rest)
  {
    assert ([UnaryToken(op)] + printed + rest)[1..] == printed + rest;
  }

  lemma ChainUnfold(tokens: seq<Token>, x: Expr, op: string, more: seq<Token>, e: Expr)
    requires op != "" && ParseOperand(tokens) == Operand(Some(x), [OpToken(op)] + more)
    requires ParseChain(more) == Some(e) && e.Bin?
    ensures ParseChain(tokens) == Some(Normalize(Bin(Some(x), op, RightSide(e))))
  {
    var rest := [OpToken(op)] + more;
    assert rest[1..] == more && rest[0] == OpToken(op);
  }

  /** A segment, an operator, and tokens already known to parse to a right side. */
  lemma {:induction false} PrintedSegment(l: Expr, op: string, r: Expr, more: seq<Token>, e: Expr)
    requires SegmentOk(l) && op != ""
    requires OperandOk(r) || (IsLogical(op) && ChainOk(r))
    requires ParseChain(more) == Some(e) && e.Bin? && RightSide(e) == Some(r)
    ensures ParseChain(Print(l) + ([OpToken(op)] + more)) == Some(Bin(Some(l), op, Some(r)))
    decreases l, 2
  {
    var rest := [OpToken(op)] + more;
    if OperandOk(l) {
      PrintedFirst(l, op, r, more, e);
    } else {
      var a, s := l.x.value, l.y.value;
      PrintedSegment(s, op, r, more, e);
      PrintOfLink(l, a, s);
      AppendLink(Print(a), OpToken(l.op), Print(s), rest);
      PrintedLink(Print(l) + rest, a, l.op, s, Print(s) + rest, op, r);
    }
  }

  lemma {:induction false} PrintedFirst(l: Expr, op: string, r: Expr, more: seq<Token>, e: Expr)
    requires OperandOk(l) && op != ""
    requires OperandOk(r) || (IsLogical(op) && ChainOk(r))
    requires ParseChain(more) == Some(e) && e.Bin? && RightSide(e) == Some(r)
    ensures ParseChain(Print(l) + ([OpToken(op)] + more)) == Some(Bin(Some(l), op, Some(r)))
    decreases l, 1
  {
    var rest := [OpToken(op)] + more;
    PrintedOperand(l, rest);
    ChainUnfold(Print(l) + rest, l, op, more, e);
    assert IsLogical(op) || !r.Bin?;
  }

  lemma {:induction false} PrintedLink(all: seq<Token>, a: Expr, aop: string, s: Expr, inner: seq<Token>, op: string, r: Expr)
    requires OperandOk(a) && IsRelational(aop) && (OperandOk(r) || ChainOk(r))
    requires all == Print(a) + ([OpToken(aop)] + inner)
    requires ParseChain(inner) == Some(Bin(Some(s), op, Some(r)))
    ensures ParseChain(all) == Some(Bin(Some(Bin(Some(a), aop, Some(s))), op, Some(r)))
    decreases a, 1
  {
    PrintedOperand(a, [OpToken(aop)] + inner);
    ChainUnfold(all, a, aop, inner, Bin(Some(s), op, Some(r)));
    RotateSegment(a, aop, s, op, r);
  }

  lemma AppendLink(v: seq<Token>, t: Token, w: seq<Token>, rest: seq<Token>)
    ensures v + [t] + w + rest == v + ([t] + (w + rest))
  {
  }

  lemma PrintOfLink(l: Expr, a: Expr, s: Expr)
    requires l.Bin? && l.x == Some(a) && l.y == Some(s)
    ensures Print(l) == Print(a) + [OpToken(l.op)] + Print(s)
  {
  }

  lemma RotateSegment(a: Expr, aop: string, s: Expr, op: string, r: Expr)
    requires IsRelational(aop) && (OperandOk(r) || ChainOk(r))
    ensures Normalize(Bin(Some(a), aop, Some(Bin(Some(s), op, Some(r))))) == Bin(Some(Bin(Some(a), aop, Some(s))), op, Some(r))
  {
    if r.Bin? {
      NormalizeIsDone(r);
    }
  }

  lemma {:induction false} PrintedAlone(e: Expr)
    requires OperandOk(e)
    ensures ParseChain(Print(e)) == Some(Bin(Some(e), "", None))
    decreases e, 1
  {
    PrintedOperand(e, []);
    assert Print(e) + [] == Print(e);
  }

  lemma {:induction false} PrintedChain(e: Expr)
    requires ChainOk(e)
    ensures ParseChain(Print(e)) == Some(e)
    decreases e, 3
  {
    var l, r := e.x.value, e.y.value;
    if OperandOk(r) {
      PrintedAlone(r);
      PrintedSegment(l, e.op, r, Print(r), Bin(Some(r), "", None));
    } else {
      PrintedChain(r);
      PrintedSegment(l, e.op, r, Print(r), r);
    }
    PrintOfLink(e, l, r);
    AppendLink(Print(l), OpToken(e.op), Print(r), []);
    assert Print(l) + [OpToken(e.op)] + Print(r) + [] == Print(e) && Print(r) + [] == Print(r);
  }

  /** Parsing the print of a canonical tree gives the tree back. */
  lemma {:induction false} PrintedRoot(e: Expr)
    requires RootOk(e)
    ensures ParseCriteria(Print(e)) == Some(e)
    decreases e, 4
  {
    if e.Bin? {
      PrintedChain(e);
    } else if e.uop == "" {
      PrintedAlone(e.ux.value);
      assert Print(e) == Print(e.ux.value);
    } else {
      PrintedAlone(e);
    }
  }
}
