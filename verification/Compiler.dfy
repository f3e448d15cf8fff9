/** Compiling a criteria tree to closures, and what the closures compute. */
module Compiler {
  import opened Base
  import opened Ast
  import opened Tasks
  import P = Parser

  datatype Value = Nil | Text(text: string) | Bool(b: bool) | Int(i: int) | Float(f: real) | Object(id: nat)

  /** The state and the conversions of the toolbox: what the outside supplies. */
  datatype World = World(lookup: string -> Option<Value>, asText: Value -> string, asInt: Value -> int,
                         asFloat: Value -> real, asBool: Value -> bool)

  /** A value with the flag that tells whether anything is defined, or an error. */
  datatype Outcome = Got(value: Value, has: bool) | Unsupported

  type Compute = World -> Outcome

  // ---- The evaluators, on evaluated operands ----

  predicate Supported(op: string) {
    IsEqual(op) || IsNotEqual(op) || IsContains(op) || IsNotContains(op) || op in {"<", ">", "<=", ">=", "&&", "||"}
  }

  predicate IsEqual(op: string) {
    op in {":", "=", "=="}
  }

  predicate IsNotEqual(op: string) {
    op in {"!", "<>", ":!", "!="}
  }

  predicate IsContains(op: string) {
    op in {"contains", ":/"}
  }

  predicate IsNotContains(op: string) {
    op in {"contains!", ":!/"}
  }

  /** The right side is converted to the type of the left one. */
  function Converted(x: Value, y: Value, w: World): Value {
    match x
    case Text(_) => Text(w.asText(y))
    case Int(_) => Int(w.asInt(y))
    case Float(_) => Float(w.asFloat(y))
    case Bool(_) => Bool(w.asBool(y))
    case _ => y
  }

  function EqualOf(a: Outcome, b: Outcome, w: World): Outcome
    requires a.Got? && b.Got?
  {
    if !a.has && !b.has then Got(Bool(false), false)
    else if a.has != b.has then Got(Bool(false), true)
    else Got(Bool(a.value == Converted(a.value, b.value, w)), true)
  }

  function Contains(s: string, part: string): bool {
    |part| <= |s| && (s[..|part|] == part || (s != "" && Contains(s[1..], part)))
  }

  function TrimSlashes(s: string): string {
    if s != "" && s[|s| - 1] == '/' then TrimSlashes(s[..|s| - 1]) else s
  }

  function ContainsOf(trim: bool, a: Outcome, b: Outcome, w: World): Outcome
    requires a.Got? && b.Got?
  {
    if !a.has && !b.has then Got(Bool(true), false)
    else if b.value == Text("$") && !a.has then Got(Bool(true), true)
    else
      var part := w.asText(b.value);
      Got(Bool(Contains(w.asText(a.value), if trim then TrimSlashes(part) else part)), true)
  }

  function NotContainsOf(a: Outcome, b: Outcome, w: World): Outcome
    requires a.Got? && b.Got?
  {
    if !a.has && !b.has then Got(Bool(false), false)
    else Got(Bool(!Contains(w.asText(a.value), w.asText(b.value))), true)
  }

  function CompareOf(op: string, a: Outcome, b: Outcome, w: World): Outcome
    requires a.Got? && b.Got?
  {
    if !a.has && !b.has then Got(if op == ">" then Nil else Bool(false), false)
    else
      var x, y := w.asFloat(a.value), w.asFloat(b.value);
      Got(Bool(if op == "<" then x < y else if op == "<=" then x <= y else if op == ">=" then x >= y else x > y), true)
  }

  function AndOf(a: Outcome, b: Outcome, w: World): Outcome
    requires a.Got? && b.Got?
  {
    if !a.has && !b.has then Got(Bool(false), false)
    else Got(Bool(w.asBool(a.value) && w.asBool(b.value)), true)
  }

  function OrOf(a: Outcome, b: Outcome, w: World): Outcome
    requires a.Got? && b.Got?
  {
    if w.asBool(a.value) then Got(Bool(true), true)
    else if !a.has && !b.has then Got(Bool(false), false)
    else Got(Bool(w.asBool(b.value)), true)
  }

  /** What a supported operator makes of two evaluated operands. */
  function Combine(op: string, a: Outcome, b: Outcome, w: World): Outcome
    requires Supported(op) && a.Got? && b.Got?
  {
    if IsEqual(op) then EqualOf(a, b, w)
    else if IsNotEqual(op) then
      var e := EqualOf(a, b, w);
      if e.has then Got(Bool(!e.value.b), true) else Got(Bool(false), false)
    else if IsContains(op) then ContainsOf(op == ":/", a, b, w)
    else if IsNotContains(op) then NotContainsOf(a, b, w)
    else if op == "&&" then AndOf(a, b, w)
    else if op == "||" then OrOf(a, b, w)
    else CompareOf(op, a, b, w)
  }

  /** The truth of what a supported operator makes of two defined operands. */
  predicate Holds(op: string, a: Outcome, b: Outcome, w: World)
    requires Supported(op) && a.Got? && b.Got?
  {
    Combine(op, a, b, w) == Got(Bool(true), true)
  }

  /** On operands that are both defined a strict comparison is the other one with its sides
      exchanged, and the operators come in complementary pairs. */
  lemma OperatorsArePaired(a: Outcome, b: Outcome, w: World)
    requires a.Got? && b.Got? && a.has && b.has
    ensures Holds("<", a, b, w) <==> Holds(">", b, a, w)
    ensures Holds("<=", a, b, w) <==> Holds(">=", b, a, w)
    ensures Holds("<", a, b, w) <==> !Holds(">=", a, b, w)
    ensures Holds("==", a, b, w) <==> !Holds("!=", a, b, w)
    ensures Holds("contains", a, b, w) <==> !Holds("contains!", a, b, w)
  {
    assert forall op :: op in {"<", ">", "<=", ">=", "==", "!=", "contains", "contains!"} ==> Supported(op);
  }

  /** The pair of ":/" and ":!/" is the exception: only the first drops slashes at the end of
      the right side, and they are complementary exactly when that makes no difference. */
  lemma SlashesUnpair(a: Outcome, b: Outcome, w: World)
    requires a.Got? && b.Got? && a.has && b.has
    ensures
      var s, part := w.asText(a.value), w.asText(b.value);
      (Holds(":/", a, b, w) <==> !Holds(":!/", a, b, w)) <==> (Contains(s, TrimSlashes(part)) <==> Contains(s, part))
  {
    assert Supported(":/") && Supported(":!/");
  }

  /** "abc" both contains and does not contain "c/". */
  lemma BothHold(w: World)
    requires w.asText(Text("abc")) == "abc" && w.asText(Text("c/")) == "c/"
    ensures var a, b := Got(Text("abc"), true), Got(Text("c/"), true);
      Holds(":/", a, b, w) && Holds(":!/", a, b, w)
  {
    assert "c/"[..1] == "c" && TrimSlashes("c") == "c" && TrimSlashes("c/") == "c";
    var s := "abc";
    assert s[1..] == "bc" && s[1..][1..] == "c" && s[1..][1..][1..] == "";
    assert Contains("c", "c") && Contains("bc", "c") && Contains("abc", "c");
    assert !Contains("", "c/") && !Contains("c", "c/") && !Contains("bc", "c/") && !Contains("abc", "c/");
  }

  // ---- Unary operators ----

  predicate UnarySupported(op: string) {
    op in {"!", "not", "", "defined"}
  }

  function Truth(a: Outcome): Outcome
    requires a.Got?
  {
    if !a.has then Got(Bool(false), true)
    else
      match a.value
      case Text(s) => Got(Bool(Trim(s) !in {"false", "0", ""}), true)
      case Bool(b) => Got(Bool(b), true)
      case Int(i) => Got(Bool(i != 0), true)
      case Float(f) => Got(Bool(f != 0.0), true)
      case v => Got(Bool(v != Nil), true)
  }

  function UnaryOf(op: string, a: Outcome, w: World): Outcome
    requires UnarySupported(op) && a.Got?
  {
    if op == "" then Truth(a)
    else if op == "defined" then Got(Bool(a.has), true)
    else Got(Bool(!w.asBool(a.value)), a.has)
  }

  // ---- Compilation: a factory of closures, which fails late ----

  datatype Factory = Factory(make: () -> Option<Compute>)

  datatype Operand =
    | Constant(text: string)
    | Variable(name: string)
    | Missing
    | Nested(factory: Factory)

  /** An operand with its closure made; a factory that fails leaves none behind. */
  datatype Ready = ReadyConstant(text: string) | ReadyVariable(name: string) | ReadyMissing | ReadyNested(compute: Option<Compute>)

  function Make(o: Operand): Ready {
    match o
    case Constant(t) => ReadyConstant(t)
    case Variable(n) => ReadyVariable(n)
    case Missing => ReadyMissing
    case Nested(f) => ReadyNested(f.make())
  }

  function ValueOf(o: Ready, w: World): Outcome {
    match o
    case ReadyConstant(t) => Got(Text(t), true)
    case ReadyVariable(n) => (match w.lookup(n) case Some(v) => Got(v, true) case None => Got(Nil, false))
    case ReadyMissing => Got(Nil, false)
    case ReadyNested(Some(c)) => c(w)
    case ReadyNested(None) => Unsupported
  }

  function BinaryClosure(op: string, x: Ready, y: Ready): Compute
    requires Supported(op)
  {
    (w: World) =>
      var a := ValueOf(x, w);
      if a.Unsupported? then Unsupported
      else if op == "||" && w.asBool(a.value) then Got(Bool(true), true)
      else
        var b := ValueOf(y, w);
        if b.Unsupported? then Unsupported else Combine(op, a, b, w)
  }

  function UnaryClosure(op: string, x: Ready): Compute
    requires UnarySupported(op)
  {
    (w: World) =>
      var a := ValueOf(x, w);
      if a.Unsupported? then Unsupported else UnaryOf(op, a, w)
  }

  function NewBinary(op: string, x: Operand, y: Operand): Factory {
    if Supported(op) then Factory(() => Some(BinaryClosure(op, Make(x), Make(y)))) else Factory(() => None)
  }

  function NewUnary(op: string, x: Operand): Factory {
    if UnarySupported(op) then Factory(() => Some(UnaryClosure(op, Make(x)))) else Factory(() => None)
  }

  /** None: the node cannot be compiled at all. */
  function Compile(e: Expr): Option<Factory>
    decreases e, 0
  {
    match e
    case Bin(x, op, y) =>
      (match NewOperand(x)
       case None => None
       case Some(a) =>
         match NewOperand(y)
         case None => None
         case Some(b) => Some(NewBinary(op, a, b)))
    case Un(op, x) =>
      (match NewOperand(x)
       case None => None
       case Some(a) => Some(NewUnary(op, a)))
    case Grp(x) => Compile(x)
    case _ => None
  }

  function NewOperand(x: Option<Expr>): Option<Operand>
    decreases x, 1
  {
    match x
    case None => Some(Missing)
    case Some(Lit(l)) => Some(Constant(l.value))
    case Some(Sel(n)) => Some(Variable(n))
    case Some(e) => (match Compile(e) case None => None case Some(f) => Some(Nested(f)))
  }

  // ---- Direct evaluation ----

  /** Is the operator that decides the node, below any groups, a supported one? */
  predicate HeadSupported(e: Expr) {
    match e
    case Bin(_, op, _) => Supported(op)
    case Un(op, _) => UnarySupported(op)
    case Grp(x) => HeadSupported(x)
    case _ => false
  }

  /** The value of a tree, computed by recursion: the left side first; or does without the
      right side when the left one is true; an unsupported operator below an evaluated
      position is an error. */
  function Direct(e: Expr, w: World): Outcome
    requires HeadSupported(e)
    decreases e, 0
  {
    match e
    case Bin(x, op, y) =>
      var a := DirectOperand(x, w);
      if a.Unsupported? then Unsupported
      else if op == "||" && w.asBool(a.value) then Got(Bool(true), true)
      else
        var b := DirectOperand(y, w);
        if b.Unsupported? then Unsupported else Combine(op, a, b, w)
    case Un(op, x) =>
      var a := DirectOperand(x, w);
      if a.Unsupported? then Unsupported else UnaryOf(op, a, w)
    case Grp(x) => Direct(x, w)
  }

  function DirectOperand(x: Option<Expr>, w: World): Outcome
    decreases x, 1
  {
    match x
    case None => Got(Nil, false)
    case Some(Lit(l)) => Got(Text(l.value), true)
    case Some(Sel(n)) => (match w.lookup(n) case Some(v) => Got(v, true) case None => Got(Nil, false))
    case Some(e) => if HeadSupported(e) then Direct(e, w) else Unsupported
  }

  /** No group holds a bare literal or selector; the parser never builds one. */
  predicate Compilable(e: Expr)
    decreases e, 0
  {
    match e
    case Bin(x, _, y) => OperandCompilable(x) && OperandCompilable(y)
    case Un(_, x) => OperandCompilable(x)
    case Grp(x) => Compilable(x)
    case _ => false
  }

  predicate OperandCompilable(x: Option<Expr>)
    decreases x, 1
  {
    x.None? || x.value.Lit? || x.value.Sel? || Compilable(x.value)
  }

  ghost predicate Agrees(f: Factory, e: Expr) {
    if HeadSupported(e) then f.make().Some? && forall w :: f.make().value(w) == Direct(e, w)
    else f.make().None?
  }

  /** The compiled closure agrees with direct evaluation in every state; when the deciding
      operator is not supported, making the closure fails. */
  lemma {:induction false} CompileAgrees(e: Expr)
    ensures Compile(e).Some? <==> Compilable(e)
    ensures Compile(e).Some? ==> Agrees(Compile(e).value, e)
    decreases e, 0
  {
    match e
    case Bin(x, op, y) =>
      OperandAgrees(x);
      OperandAgrees(y);
    case Un(op, x) =>
      OperandAgrees(x);
    case Grp(x) =>
      CompileAgrees(x);
    case _ =>
  }

  lemma {:induction false} OperandAgrees(x: Option<Expr>)
    ensures NewOperand(x).Some? <==> OperandCompilable(x)
    ensures NewOperand(x).Some? ==> forall w :: ValueOf(Make(NewOperand(x).value), w) == DirectOperand(x, w)
    decreases x, 1
  {
    if x.Some? && !x.value.Lit? && !x.value.Sel? {
      CompileAgrees(x.value);
    }
  }

  /** What the parser builds can be compiled. */
  lemma {:induction false} RootIsCompilable(e: Expr)
    requires P.RootOk(e)
    ensures Compilable(e)
    decreases e, 4
  {
    if e.Bin? {
      ChainIsCompilable(e);
    } else {
      OperandIsCompilable(e.ux.value);
    }
  }

  lemma {:induction false} OperandIsCompilable(e: Expr)
    requires P.OperandOk(e)
    ensures OperandCompilable(Some(e))
    decreases e, 0
  {
    match e
    case Un(_, x) => OperandIsCompilable(x.value);
    case Grp(x) => RootIsCompilable(x);
    case _ =>
  }

  lemma {:induction false} SegmentIsCompilable(e: Expr)
    requires P.SegmentOk(e)
    ensures OperandCompilable(Some(e))
    decreases e, 1
  {
    if P.OperandOk(e) {
      OperandIsCompilable(e);
    } else {
      OperandIsCompilable(e.x.value);
      SegmentIsCompilable(e.y.value);
    }
  }

  lemma {:induction false} ChainIsCompilable(e: Expr)
    requires P.ChainOk(e)
    ensures Compilable(e)
    decreases e, 2
  {
    SegmentIsCompilable(e.x.value);
    if P.OperandOk(e.y.value) {
      OperandIsCompilable(e.y.value);
    } else {
      ChainIsCompilable(e.y.value);
    }
  }

  // ---- When does evaluation fail? ----

  /** Does evaluation reach an unsupported operator below this node?  Exactly then it fails. */
  predicate Reaches(e: Expr, w: World)
    requires HeadSupported(e)
    ensures Reaches(e, w) <==> Direct(e, w).Unsupported?
    decreases e, 0
  {
    match e
    case Bin(x, op, y) =>
      || OperandReaches(x, w)
      || (!(op == "||" && w.asBool(DirectOperand(x, w).value)) && OperandReaches(y, w))
    case Un(_, x) => OperandReaches(x, w)
    case Grp(x) => Reaches(x, w)
  }

  predicate OperandReaches(x: Option<Expr>, w: World)
    ensures OperandReaches(x, w) <==> DirectOperand(x, w).Unsupported?
    decreases x, 1
  {
    x.Some? && !x.value.Lit? && !x.value.Sel? && (!HeadSupported(x.value) || Reaches(x.value, w))
  }

  // ---- Missing variables ----

  /** Trees with supported operators throughout; operands may be missing. */
  predicate AllSupported(e: Expr) {
    match e
    case Lit(_) => true
    case Sel(_) => true
    case Un(op, y) => UnarySupported(op) && (y.Some? ==> AllSupported(y.value))
    case Grp(y) => !y.Lit? && !y.Sel? && AllSupported(y)
    case Bin(y, op, z) => Supported(op) && (y.Some? ==> AllSupported(y.value)) && (z.Some? ==> AllSupported(z.value))
  }

  /** Is some literal or variable of the tree defined?  What asks for definedness, and the
      truth value of a single operand, are always defined. */
  predicate Defined(e: Expr, w: World) {
    match e
    case Lit(_) => true
    case Sel(n) => w.lookup(n).Some?
    case Un(op, y) => op == "defined" || op == "" || (y.Some? && Defined(y.value, w))
    case Grp(y) => Defined(y, w)
    case Bin(y, _, z) => (y.Some? && Defined(y.value, w)) || (z.Some? && Defined(z.value, w))
  }

  /** Would the tree be true if nothing in it were defined?  A test for containment is, and
      so is a negation of something that is not. */
  predicate Odd(e: Expr) {
    match e
    case Un(op, y) => (op == "!" || op == "not") && !(y.Some? && Odd(y.value))
    case Grp(y) => Odd(y)
    case Bin(_, op, _) => IsContains(op)
    case _ => false
  }

  /** Is such a tree the left side of some or? */
  predicate Trap(e: Expr) {
    match e
    case Un(op, y) => y.Some? && Trap(y.value)
    case Grp(y) => Trap(y)
    case Bin(y, op, z) => (y.Some? && ((op == "||" && Odd(y.value)) || Trap(y.value))) || (z.Some? && Trap(z.value))
    case _ => false
  }

  /** A missing value is not true, and a truth value is converted to itself. */
  ghost predicate Sane(w: World) {
    !w.asBool(Nil) && forall b :: w.asBool(Bool(b)) == b
  }

  /** A value with the flag as given, and, without the flag, the truth as given. */
  predicate Flagged(a: Outcome, flag: bool, truth: bool, w: World) {
    a.Got? && (a.has <==> flag) && (!a.has ==> w.asBool(a.value) == truth)
  }

  lemma BinaryFlags(op: string, a: Outcome, b: Outcome, f: bool, p: bool, g: bool, q: bool, w: World)
    requires Supported(op) && Flagged(a, f, p, w) && Flagged(b, g, q, w) && Sane(w)
    ensures var r := Combine(op, a, b, w);
      Flagged(r, f || g || (op == "||" && p), IsContains(op), w) && (r.has ==> r.value.Bool?)
  {
  }

  lemma UnaryFlags(op: string, a: Outcome, f: bool, p: bool, w: World)
    requires UnarySupported(op) && Flagged(a, f, p, w) && Sane(w)
    ensures var r := UnaryOf(op, a, w);
      && Flagged(r, f || op == "defined" || op == "", (op == "!" || op == "not") && !p, w)
      && (r.has ==> r.value.Bool?)
  {
  }

  /** The flag is set exactly when something in the tree is defined or a tree that is true
      without anything defined stands to the left of an or; when it is not set, the value is
      true exactly for such a tree. */
  lemma {:induction false} FlagIsExact(e: Expr, w: World)
    requires AllSupported(e) && Sane(w)
    ensures var r := DirectOperand(Some(e), w);
      Flagged(r, Defined(e, w) || Trap(e), Odd(e), w) && (!e.Lit? && !e.Sel? && r.has ==> r.value.Bool?)
    decreases e, 0
  {
    match e
    case Bin(y, op, z) =>
      OperandFlag(y, w);
      OperandFlag(z, w);
      BinaryFlags(op, DirectOperand(y, w), DirectOperand(z, w), Answers(y, w), IsOdd(y), Answers(z, w), IsOdd(z), w);
    case Un(op, y) =>
      OperandFlag(y, w);
      UnaryFlags(op, DirectOperand(y, w), Answers(y, w), IsOdd(y), w);
    case Grp(y) =>
      FlagIsExact(y, w);
    case _ =>
  }

  predicate Answers(x: Option<Expr>, w: World) {
    x.Some? && (Defined(x.value, w) || Trap(x.value))
  }

  predicate IsOdd(x: Option<Expr>) {
    x.Some? && Odd(x.value)
  }

  lemma {:induction false} OperandFlag(x: Option<Expr>, w: World)
    requires (x.Some? ==> AllSupported(x.value)) && Sane(w)
    ensures Flagged(DirectOperand(x, w), Answers(x, w), IsOdd(x), w)
    decreases x, 1
  {
    if x.Some? {
      FlagIsExact(x.value, w);
    }
  }

  /** The smallest such tree: a missing variable, negated, or another missing variable. */
  lemma NegationHidesMissing(w: World)
    requires Sane(w) && w.lookup("$a").None? && w.lookup("$b").None?
    ensures var e := Bin(Some(Un("!", Some(Sel("$a")))), "||", Some(Sel("$b")));
      !Defined(e, w) && Trap(e) && Direct(e, w) == Got(Bool(true), true)
  {
    var n := Un("!", Some(Sel("$a")));
    assert !Defined(n, w) && Odd(n);
    assert DirectOperand(Some(n), w) == Direct(n, w) == Got(Bool(true), false);
  }

  // ---- Evaluating an expression ----

  /** The result, and whether there was an error. */
  datatype Answer = Answer(holds: bool, error: bool)

  function Evaluate(tokens: seq<Token>, w: World, default: bool): Answer {
    if tokens == [] then Answer(default, false)
    else
      match P.ParseCriteria(tokens)
      case None => Answer(default, true)
      case Some(e) =>
        match Compile(e)
        case None => Answer(default, true)
        case Some(f) =>
          match f.make()
          case None => Answer(default, true)
          case Some(c) =>
            Answered(c(w), default)
  }

  function Answered(r: Outcome, default: bool): Answer {
    if r.Unsupported? then Answer(default, true)
    else if !r.has then Answer(default, false)
    else Answer(if r.value.Bool? then r.value.b else default, false)
  }

  /** For every complete expression with supported operators: the caller's default is the
      result exactly when every variable in it is missing and there is no trap; otherwise the
      default does not matter and there is no error. */
  lemma DefaultWhenAllMissing(tokens: seq<Token>, w: World)
    requires P.Complete(tokens) && Sane(w)
    requires P.ParseCriteria(tokens).Some? && AllSupported(P.ParseCriteria(tokens).value)
    ensures var e := P.ParseCriteria(tokens).value;
      && ((forall d :: Evaluate(tokens, w, d) == Answer(d, false)) <==> !Defined(e, w) && !Trap(e))
      && (Defined(e, w) || Trap(e) ==>
            Evaluate(tokens, w, true) == Evaluate(tokens, w, false) && !Evaluate(tokens, w, true).error)
  {
    P.CriteriaAreKept(tokens);
    var e := P.ParseCriteria(tokens).value;
    RootIsCompilable(e);
    CompileAgrees(e);
    FlagIsExact(e, w);
    assert Evaluate(tokens, w, true) == Answered(Direct(e, w), true);
    assert Evaluate(tokens, w, false) == Answered(Direct(e, w), false);
  }

  // ---- The meaning of an expression ----

  predicate OccursAt(s: string, part: string, i: nat) {
    i + |part| <= |s| && s[i..i + |part|] == part
  }

  /** Does `part` occur in `s` at some position? */
  ghost predicate Occurs(s: string, part: string) {
    exists i: nat :: OccursAt(s, part, i)
  }

  lemma {:induction false} ContainsExactly(s: string, part: string)
    ensures Contains(s, part) <==> Occurs(s, part)
  {
    if OccursAt(s, part, 0) {
      assert Contains(s, part);
    } else if s != "" {
      ContainsExactly(s[1..], part);
      forall i: nat
        ensures i > 0 ==> (OccursAt(s, part, i) <==> OccursAt(s[1..], part, i - 1))
      {
        assert 0 < i && i + |part| <= |s| ==> s[1..][i - 1..i - 1 + |part|] == s[i..i + |part|];
      }
      forall i: nat
        ensures OccursAt(s[1..], part, i) <==> OccursAt(s, part, i + 1)
      {
        assert i + 1 > 0;
      }
    }
  }

  /** What remains of a text without the slashes at its end. */
  lemma {:induction false} TrimSlashesExactly(s: string) returns (slashes: string)
    ensures s == TrimSlashes(s) + slashes && forall c :: c in slashes ==> c == '/'
    ensures TrimSlashes(s) != "" ==> TrimSlashes(s)[|TrimSlashes(s)| - 1] != '/'
    decreases |s|
  {
    slashes := "";
    if s != "" && s[|s| - 1] == '/' {
      slashes := TrimSlashesExactly(s[..|s| - 1]);
      slashes := slashes + "/";
    }
  }

  /** Equality in the type of the left value. */
  predicate SameAs(u: Value, v: Value, w: World) {
    match u
    case Text(s) => w.asText(v) == s
    case Int(i) => w.asInt(v) == i
    case Float(f) => w.asFloat(v) == f
    case Bool(b) => w.asBool(v) == b
    case _ => u == v
  }

  /** When does an operator hold of two values, `hu` and `hv` telling which are defined? */
  ghost predicate Relates(op: string, u: Value, hu: bool, v: Value, hv: bool, w: World) {
    if op in {":", "=", "=="} then hu && hv && SameAs(u, v, w)
    else if op in {"!", "<>", ":!", "!="} then (hu || hv) && !(hu && hv && SameAs(u, v, w))
    else if op in {"contains", ":/"} then
      || (!hu && (!hv || v == Text("$")))
      || Occurs(w.asText(u), if op == ":/" then TrimSlashes(w.asText(v)) else w.asText(v))
    else if op in {"contains!", ":!/"} then (hu || hv) && !Occurs(w.asText(u), w.asText(v))
    else if op == "||" then w.asBool(u) || ((hu || hv) && w.asBool(v))
    else
      && (hu || hv)
      && if op == "&&" then w.asBool(u) && w.asBool(v)
         else if op == "<" then w.asFloat(u) < w.asFloat(v)
         else if op == "<=" then w.asFloat(u) <= w.asFloat(v)
         else if op == ">" then w.asFloat(u) > w.asFloat(v)
         else w.asFloat(u) >= w.asFloat(v)
  }

  /** When does a single value count as true? */
  predicate IsTrue(v: Value) {
    match v
    case Nil => false
    case Text(s) => Trim(s) != "" && Trim(s) != "0" && Trim(s) != "false"
    case Bool(b) => b
    case Int(i) => i != 0
    case Float(f) => f != 0.0
    case Object(_) => true
  }

  /** The value of a tree: a relation or a negation is as true as it holds.  The comparison ">"
      of nothing defined has no value. */
  ghost function Denotes(e: Expr, w: World): Value
    decreases e, 0
  {
    match e
    case Lit(l) => Text(l.value)
    case Sel(n) => if w.lookup(n).Some? then w.lookup(n).value else Nil
    case Grp(x) => Denotes(x, w)
    case Un(op, x) =>
      if op == "defined" then Bool(Answers(x, w))
      else if op == "" then Bool(Answers(x, w) && IsTrue(DenotesOperand(x, w)))
      else Bool(!w.asBool(DenotesOperand(x, w)))
    case Bin(x, op, y) =>
      if op == ">" && !Answers(x, w) && !Answers(y, w) then Nil
      else Bool(Relates(op, DenotesOperand(x, w), Answers(x, w), DenotesOperand(y, w), Answers(y, w), w))
  }

  ghost function DenotesOperand(x: Option<Expr>, w: World): Value
    decreases x, 1
  {
    if x.Some? then Denotes(x.value, w) else Nil
  }

  lemma OperatorMeans(op: string, a: Outcome, b: Outcome, w: World)
    requires Supported(op) && a.Got? && b.Got?
    ensures var r := Combine(op, a, b, w);
      r.value == (if op == ">" && !a.has && !b.has then Nil else Bool(Relates(op, a.value, a.has, b.value, b.has, w)))
  {
    ContainsExactly(w.asText(a.value), w.asText(b.value));
    ContainsExactly(w.asText(a.value), TrimSlashes(w.asText(b.value)));
  }

  /** The operators on two operands that are both defined: equality is that of the converted
      values, comparisons are those of the numbers, and the logical operators are the logical
      ones. */
  lemma DefinedOperandsMean(a: Outcome, b: Outcome, w: World)
    requires a.Got? && b.Got? && a.has && b.has
    ensures Holds("<", a, b, w) <==> w.asFloat(a.value) < w.asFloat(b.value)
    ensures Holds("<=", a, b, w) <==> w.asFloat(a.value) <= w.asFloat(b.value)
    ensures Holds(">", a, b, w) <==> w.asFloat(a.value) > w.asFloat(b.value)
    ensures Holds(">=", a, b, w) <==> w.asFloat(a.value) >= w.asFloat(b.value)
    ensures forall op :: op in {":", "=", "=="} ==> (Holds(op, a, b, w) <==> SameAs(a.value, b.value, w))
    ensures forall op :: op in {"!", "<>", ":!", "!="} ==> (Holds(op, a, b, w) <==> !SameAs(a.value, b.value, w))
    ensures Holds("&&", a, b, w) <==> w.asBool(a.value) && w.asBool(b.value)
    ensures Holds("||", a, b, w) <==> w.asBool(a.value) || w.asBool(b.value)
    ensures Holds("contains", a, b, w) <==> Occurs(w.asText(a.value), w.asText(b.value))
    ensures Holds(":/", a, b, w) <==> Occurs(w.asText(a.value), TrimSlashes(w.asText(b.value)))
    ensures forall op :: op in {"contains!", ":!/"} ==>
      (Holds(op, a, b, w) <==> !Occurs(w.asText(a.value), w.asText(b.value)))
  {
    assert forall op :: op in {"<", ">", "<=", ">=", "&&", "||", "contains", ":/", "contains!", ":!/"} ==> Supported(op);
    assert forall op :: op in {":", "=", "==", "!", "<>", ":!", "!="} ==> Supported(op);
    ContainsExactly(w.asText(a.value), w.asText(b.value));
    ContainsExactly(w.asText(a.value), TrimSlashes(w.asText(b.value)));
  }

  /** Direct evaluation computes the meaning of the tree, with the flag set exactly when
      something is defined or there is a trap. */
  lemma {:induction false} MeaningIsExact(e: Expr, w: World)
    requires AllSupported(e) && Sane(w)
    ensures DirectOperand(Some(e), w) == Got(Denotes(e, w), Defined(e, w) || Trap(e))
    decreases e, 0
  {
    FlagIsExact(e, w);
    match e
    case Bin(x, op, y) =>
      OperandMeans(x, w);
      OperandMeans(y, w);
      OperatorMeans(op, DirectOperand(x, w), DirectOperand(y, w), w);
    case Un(op, x) =>
      OperandMeans(x, w);
    case Grp(x) =>
      MeaningIsExact(x, w);
    case _ =>
  }

  lemma {:induction false} OperandMeans(x: Option<Expr>, w: World)
    requires (x.Some? ==> AllSupported(x.value)) && Sane(w)
    ensures DirectOperand(x, w) == Got(DenotesOperand(x, w), Answers(x, w))
    decreases x, 1
  {
    if x.Some? {
      MeaningIsExact(x.value, w);
    }
  }

  /** A complete expression answers what its tree means, or the caller's default when nothing
      in it is defined and there is no trap. */
  lemma EvaluateMeans(tokens: seq<Token>, w: World, default: bool)
    requires P.Complete(tokens) && Sane(w)
    requires P.ParseCriteria(tokens).Some? && AllSupported(P.ParseCriteria(tokens).value)
    ensures var e := P.ParseCriteria(tokens).value;
      Evaluate(tokens, w, default)
        == Answer(if Defined(e, w) || Trap(e) then Denotes(e, w) == Bool(true) else default, false)
  {
    P.CriteriaAreKept(tokens);
    var e := P.ParseCriteria(tokens).value;
    RootIsCompilable(e);
    CompileAgrees(e);
    FlagIsExact(e, w);
    MeaningIsExact(e, w);
    assert Evaluate(tokens, w, default) == Answered(Direct(e, w), default);
  }

  /** An expression is an error, with the default for its answer, when it is no sequence of
      operands and operators, or when evaluation reaches an unsupported operator, the deciding
      one included. */
  lemma ErrorsExactly(tokens: seq<Token>, w: World, default: bool)
    requires tokens == [] || P.Complete(tokens) || P.ParseCriteria(tokens).None?
    ensures var r, parsed := Evaluate(tokens, w, default), P.ParseCriteria(tokens);
      && (r.error <==> tokens != [] && (parsed.None? || !HeadSupported(parsed.value) || Reaches(parsed.value, w)))
      && (r.error || tokens == [] ==> r.holds == default)
  {
    if P.Complete(tokens) {
      P.CriteriaAreKept(tokens);
      RootIsCompilable(P.ParseCriteria(tokens).value);
      CompileAgrees(P.ParseCriteria(tokens).value);
    }
  }

  // ---- Precedence: relational atoms, right folded ----

  /** An operand, or two operands joined by a relational operator. */
  datatype Atom = One(e: Expr) | Compare(l: Expr, rel: string, r: Expr)

  /** Atoms joined by logical operators. */
  datatype Formula = Last(atom: Atom) | Join(first: Atom, logical: string, rest: Formula)

  predicate AtomOk(a: Atom) {
    match a
    case One(e) => P.OperandOk(e)
    case Compare(l, rel, r) => P.OperandOk(l) && P.IsRelational(rel) && P.OperandOk(r)
  }

  predicate FormulaOk(f: Formula) {
    match f
    case Last(a) => AtomOk(a)
    case Join(a, op, rest) => AtomOk(a) && IsLogical(op) && FormulaOk(rest)
  }

  function AtomTokens(a: Atom): seq<Token> {
    match a
    case One(e) => Print(e)
    case Compare(l, rel, r) => Print(l) + [OpToken(rel)] + Print(r)
  }

  function FormulaTokens(f: Formula): seq<Token> {
    match f
    case Last(a) => AtomTokens(a)
    case Join(a, op, rest) => AtomTokens(a) + [LogicalToken(op)] + FormulaTokens(rest)
  }

  function AtomExpr(a: Atom): Expr {
    match a
    case One(e) => e
    case Compare(l, rel, r) => Bin(Some(l), rel, Some(r))
  }

  function FormulaExpr(f: Formula): Expr {
    match f
    case Last(a) => AtomExpr(a)
    case Join(a, op, rest) => Bin(Some(AtomExpr(a)), op, Some(FormulaExpr(rest)))
  }

  /** The value of a formula: a right fold over the values of its atoms, and and or having
      the same precedence. */
  function Fold(f: Formula, w: World): Outcome
    requires FormulaOk(f)
  {
    match f
    case Last(a) => DirectOperand(Some(AtomExpr(a)), w)
    case Join(a, op, rest) =>
      var v := DirectOperand(Some(AtomExpr(a)), w);
      if v.Unsupported? then Unsupported
      else if op == "||" && w.asBool(v.value) then Got(Bool(true), true)
      else
        var r := Fold(rest, w);
        if r.Unsupported? then Unsupported
        else if op == "&&" then AndOf(v, r, w) else OrOf(v, r, w)
  }

  lemma {:induction false} FormulaIsChain(f: Formula)
    requires FormulaOk(f)
    ensures var e := FormulaExpr(f);
      && Print(e) == FormulaTokens(f)
      && (if e.Bin? then P.ChainOk(e) else P.OperandOk(e))
  {
    match f
    case Last(a) =>
    case Join(a, op, rest) =>
      FormulaIsChain(rest);
      assert Print(AtomExpr(a)) == AtomTokens(a);
  }

  lemma {:induction false} FormulaFolds(f: Formula, w: World)
    requires FormulaOk(f)
    ensures DirectOperand(Some(FormulaExpr(f)), w) == Fold(f, w)
  {
    match f
    case Last(_) =>
    case Join(a, op, rest) =>
      FormulaFolds(rest, w);
  }

  /** What the parser makes of a formula that is a single operand is its truth value. */
  function RootValue(e: Expr, a: Outcome): Outcome {
    if e.Bin? || e.Un? || a.Unsupported? then a else Truth(a)
  }

  /** Parsing atoms joined by logical operators gives the right-associative chain over the
      atoms; it compiles, its closure can be made when its deciding operator is supported,
      and computes the right fold over the values of the atoms. */
  lemma ParsedFormulaFolds(f: Formula, w: World)
    requires FormulaOk(f)
    ensures var e := FormulaExpr(f);
      var n := Compile(P.Root(e));
      && P.ParseCriteria(FormulaTokens(f)) == Some(P.Root(e)) && n.Some?
      && (n.value.make().Some? <==> HeadSupported(P.Root(e)))
      && (n.value.make().Some? ==> n.value.make().value(w) == RootValue(e, Fold(f, w)))
  {
    var e := FormulaExpr(f);
    FormulaIsChain(f);
    assert Print(P.Root(e)) == Print(e);
    P.PrintedRoot(P.Root(e));
    RootIsCompilable(P.Root(e));
    CompileAgrees(P.Root(e));
    FormulaFolds(f, w);
  }

  /** A negation sign between two operands is read as inequality. */
  lemma BangIsInequality(l: Expr, r: Expr, w: World)
    requires P.OperandOk(l) && P.OperandOk(r)
    ensures var e := Bin(Some(l), "!", Some(r));
      && P.ParseCriteria(Print(l) + [UnaryToken("!")] + Print(r)) == Some(e)
      && Direct(e, w) == Direct(Bin(Some(l), "!=", Some(r)), w)
  {
    ParsedFormulaFolds(Last(Compare(l, "!", r)), w);
  }
}
