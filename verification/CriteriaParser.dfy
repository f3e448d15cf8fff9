/** The parser as the program has it: a cursor that moves over the tokens and binary nodes
    that are filled and rotated in place. */
module CriteriaParser {
  import opened Base
  import opened Ast
  import P = Parser

  class Cursor {
    const tokens: seq<Token>
    var pos: nat

    constructor (tokens: seq<Token>)
      ensures this.tokens == tokens && pos == 0
    {
      this.tokens := tokens;
      pos := 0;
    }

    ghost predicate Valid()
      reads this
    {
      pos <= |tokens|
    }

    ghost function Rest(): seq<Token>
      requires Valid()
      reads this
    {
      tokens[pos..]
    }
  }

  /** The right side of a node is another node while it can still be rotated; what has been
      moved to a left side is never changed again. */
  datatype Right = Nothing | Leaf(e: Expr) | Node(b: Binary)

  class Binary {
    var x: Option<Expr>
    var op: string
    var y: Right
    ghost var Repr: set<Binary>

    constructor ()
      ensures Valid() && fresh(Repr) && Tree() == Bin(None, "", None)
      ensures x == None && op == "" && y == Nothing && Repr == {this}
    {
      x, op, y := None, "", Nothing;
      Repr := {this};
    }

    ghost predicate Valid()
      reads this, Repr
      decreases Repr
    {
      && this in Repr
      && (y.Node? ==> y.b in Repr && y.b.Repr <= Repr && this !in y.b.Repr && y.b.Valid())
      && (y.Leaf? ==> !y.e.Bin?)
    }

    /** The tree below this node. */
    function Tree(): (e: Expr)
      requires Valid()
      reads this, Repr
      ensures e.Bin?
      decreases Repr
    {
      Bin(x, op, match y case Nothing => None case Leaf(e) => Some(e) case Node(b) => Some(b.Tree()))
    }
  }

  /** In place: the node takes over operator and right side of the node to its right. */
  method NormalizeBinary(b: Binary)
    requires b.Valid()
    modifies b.Repr
    ensures b.Valid() && b.Repr <= old(b.Repr) && b.Tree() == P.Normalize(old(b.Tree()))
    decreases b.Repr
  {
    if IsLogical(b.op) || !b.y.Node? {
      return;
    }
    var yOp := b.y.b;
    var swap := Bin(b.x, b.op, yOp.x);
    b.op := yOp.op;
    b.x := Some(swap);
    b.y := yOp.y;
    if b.y.Node? {
      b.Repr := {b} + b.y.b.Repr;
      NormalizeBinary(b.y.b);
      b.Repr := {b} + b.y.b.Repr;
    } else {
      b.Repr := {b};
    }
  }

  method ExpectOperand(c: Cursor) returns (ok: bool, x: Option<Expr>)
    requires c.Valid()
    modifies c
    ensures c.Valid()
    ensures match P.ParseOperand(old(c.Rest()))
      case NoOperand => !ok
      case Operand(e, rest) => ok && x == e && c.Rest() == rest
    decreases P.Size(c.Rest()), 0
  {
    ok, x := true, None;
    if c.pos == |c.tokens| {
      return;
    }
    var t := c.tokens[c.pos];
    assert c.Rest()[0] == t && c.Rest()[1..] == c.tokens[c.pos + 1..];
    match t
    case LiteralToken(l) =>
      c.pos := c.pos + 1;
      x := Some(Lit(l));
    case SelectorToken(n) =>
      c.pos := c.pos + 1;
      x := Some(Sel(n));
    case UnaryToken(op) =>
      c.pos := c.pos + 1;
      ok, x := ExpectOperand(c);
      x := Some(Un(op, x));
    case BinaryToken(_) =>
    case LogicalToken(_) =>
    case Block(inner) =>
      c.pos := c.pos + 1;
      var e := ParseCriteria(inner);
      if e.None? {
        ok := false;
      } else {
        x := Some(Grp(e.value));
      }
    case Bad =>
      ok := false;
  }

  /** Makes what was parsed to the right of an operator its right side, and rotates. */
  method Attach(b: Binary, yExpr: Binary)
    requires b.Valid() && b.y == Nothing && b.Repr == {b} && yExpr.Valid() && b !in yExpr.Repr
    requires yExpr.op == "" && yExpr.x.Some? ==> !yExpr.x.value.Bin?
    modifies b, yExpr.Repr
    ensures b.Valid() && b.Repr <= {b} + old(yExpr.Repr)
    ensures b.Tree() == P.Normalize(Bin(old(b.x), old(b.op), P.RightSide(old(yExpr.Tree()))))
  {
    if yExpr.x.Some? {
      b.y := Node(yExpr);
    }
    if yExpr.op == "" && yExpr.y == Nothing {
      b.y := if yExpr.x.Some? then Leaf(yExpr.x.value) else Nothing;
    }
    b.Repr := if b.y.Node? then {b} + yExpr.Repr else {b};
    NormalizeBinary(b);
  }

  /** Fills the empty node `b` with the chain at the cursor. */
  method ParseQualify(c: Cursor, b: Binary) returns (ok: bool)
    requires c.Valid() && b.Valid() && b.Tree() == Bin(None, "", None) && b.Repr == {b}
    modifies c, b
    ensures c.Valid() && b.Valid() && fresh(b.Repr - {b})
    ensures match P.ParseChain(old(c.Rest()))
      case None => !ok
      case Some(e) => ok && b.Tree() == e
    decreases P.Size(c.Rest()), 1
  {
    var x;
    ok, x := ExpectOperand(c);
    if !ok {
      return;
    }
    b.x := x;
    if c.pos == |c.tokens| {
      return;
    }
    var t := c.tokens[c.pos];
    assert c.Rest()[0] == t && c.Rest()[1..] == c.tokens[c.pos + 1..];
    if !(t.UnaryToken? || t.BinaryToken? || t.LogicalToken?) || t.op == "" {
      return;
    }
    c.pos := c.pos + 1;
    b.op := t.op;
    var yExpr := new Binary();
    ok := ParseQualify(c, yExpr);
    if !ok {
      return;
    }
    Attach(b, yExpr);
  }

  method ParseCriteria(tokens: seq<Token>) returns (r: Option<Expr>)
    ensures r == P.ParseCriteria(tokens)
    decreases P.Size(tokens), 2
  {
    var cursor := new Cursor(tokens);
    var binary := new Binary();
    assert cursor.Rest() == tokens;
    var ok := ParseQualify(cursor, binary);
    if !ok {
      return None;
    }
    if binary.op == "" && binary.y == Nothing && binary.x.Some? {
      r := Some(P.Root(binary.x.value));
    } else {
      r := Some(binary.Tree());
    }
  }
}
