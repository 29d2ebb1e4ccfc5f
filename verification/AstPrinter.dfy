/**
 Printing expressions back as source: every operator carries three priorities, which decide where
 parentheses go. A parser built from the documented precedence table alone gets the tree back.
 */
module AstPrinter {

  datatype Option<T> = None | Some(value: T)

  datatype BinOp =
    | Add | Sub | Mul | Div | Mod | Sl | Sr | Concat | BwOr | BwAnd | BwXor
    | IsIdentical | IsNotIdentical | IsEqual | IsNotEqual | IsSmaller | IsSmallerOrEqual | Spaceship
    | IsGreater | IsGreaterOrEqual | Pow | BoolXor | And | Or | Coalesce

  datatype UnOp = Plus | Minus | BwNot | BoolNot | Silence

  datatype AssignOp =
    | Assign | AssignRef | AssignAdd | AssignSub | AssignMul | AssignDiv | AssignMod | AssignSl | AssignSr
    | AssignConcat | AssignBwOr | AssignBwAnd | AssignBwXor | AssignPow

  datatype Expr =
    | Var(name: string)
    | Num(n: nat)
    | Binary(op: BinOp, left: Expr, right: Expr)
    | Unary(uop: UnOp, arg: Expr)
    | Assignment(aop: AssignOp, target: string, value: Expr)
    | Conditional(cond: Expr, then_: Option<Expr>, else_: Expr)
    | Dim(base: Expr, index: Option<Expr>)

  /** Signs as they appear in the source; + and - are both binary and unary. */
  datatype Sign =
    | PlusSign | MinusSign | Times | Slash | Percent | ShiftLeft | ShiftRight | Dot | Bar | Ampersand | Caret
    | EqEqEq | NotEqEq | EqEq | NotEq | Less | LessEq | LessEqGreater | Greater | GreaterEq | Power | XorWord
    | AndAnd | OrOr | QuestionQuestion | Tilde | Bang | At

  datatype Token =
    | TVar(name: string)
    | TNum(n: nat)
    | TSign(sign: Sign)
    | TAssign(aop: AssignOp)
    | TQuestion | TColon | TOpen | TClose | TBracket | TEndBracket

  function SignOf(op: BinOp): Sign {
    match op
    case Add => PlusSign
    case Sub => MinusSign
    case Mul => Times
    case Div => Slash
    case Mod => Percent
    case Sl => ShiftLeft
    case Sr => ShiftRight
    case Concat => Dot
    case BwOr => Bar
    case BwAnd => Ampersand
    case BwXor => Caret
    case IsIdentical => EqEqEq
    case IsNotIdentical => NotEqEq
    case IsEqual => EqEq
    case IsNotEqual => NotEq
    case IsSmaller => Less
    case IsSmallerOrEqual => LessEq
    case Spaceship => LessEqGreater
    case IsGreater => Greater
    case IsGreaterOrEqual => GreaterEq
    case Pow => Power
    case BoolXor => XorWord
    case And => AndAnd
    case Or => OrOr
    case Coalesce => QuestionQuestion
  }

  function UnSignOf(op: UnOp): Sign {
    match op
    case Plus => PlusSign
    case Minus => MinusSign
    case BwNot => Tilde
    case BoolNot => Bang
    case Silence => At
  }

  // ---- the printer ----

  /** Priorities of a printed operator: its own, and those its operands are printed at. */
  datatype Prio = Prio(own: int, left: int, right: int)

  function BinaryPrio(op: BinOp): Prio {
    match op
    case Add => Prio(200, 200, 201)
    case Sub => Prio(200, 200, 201)
    case Mul => Prio(210, 210, 211)
    case Div => Prio(210, 210, 211)
    case Mod => Prio(210, 210, 211)
    case Sl => Prio(190, 190, 191)
    case Sr => Prio(190, 190, 191)
    case Concat => Prio(200, 200, 201)
    case BwOr => Prio(140, 140, 141)
    case BwAnd => Prio(160, 160, 161)
    case BwXor => Prio(150, 150, 151)
    case IsIdentical => Prio(170, 171, 171)
    case IsNotIdentical => Prio(170, 171, 171)
    case IsEqual => Prio(170, 171, 171)
    case IsNotEqual => Prio(170, 171, 171)
    case IsSmaller => Prio(180, 181, 181)
    case IsSmallerOrEqual => Prio(180, 181, 181)
    case Spaceship => Prio(180, 181, 181)
    case IsGreater => Prio(180, 181, 181)
    case IsGreaterOrEqual => Prio(180, 181, 181)
    case Pow => Prio(250, 251, 250)
    case BoolXor => Prio(40, 40, 41)
    case And => Prio(130, 130, 131)
    case Or => Prio(120, 120, 121)
    case Coalesce => Prio(110, 111, 110)
  }

  const PREFIX: int := 240
  const PREFIX_ARG: int := 241
  const ASSIGN: int := 90
  const CONDITION: int := 100
  const BRANCH: int := 101
  const DIMENSION: int := 260
  const HIGHEST: int := 1000

  /** Whether an expression is put in parentheses in a context of the given priority. */
  predicate Wrapped(e: Expr, q: int) {
    !e.Var? && !e.Num? && !e.Dim? && q > Own(e)
  }

  /** The priority an expression has as a whole. */
  function Own(e: Expr): int {
    match e
    case Var(_) => HIGHEST
    case Num(_) => HIGHEST
    case Binary(op, _, _) => BinaryPrio(op).own
    case Unary(_, _) => PREFIX
    case Assignment(_, _, _) => ASSIGN
    case Conditional(_, _, _) => CONDITION
    case Dim(_, _) => HIGHEST
  }

  function Print(e: Expr, priority: int): seq<Token>
    decreases e, 1
  {
    if Wrapped(e, priority) then [TOpen] + PrintBare(e) + [TClose] else PrintBare(e)
  }

  function PrintBare(e: Expr): seq<Token>
    decreases e, 0
  {
    match e
    case Var(x) => [TVar(x)]
    case Num(n) => [TNum(n)]
    case Binary(op, l, r) => Print(l, BinaryPrio(op).left) + [TSign(SignOf(op))] + Print(r, BinaryPrio(op).right)
    case Unary(op, a) => [TSign(UnSignOf(op))] + Print(a, PREFIX_ARG)
    case Assignment(op, x, v) => [TVar(x), TAssign(op)] + Print(v, ASSIGN)
    case Conditional(c, t, f) =>
      Print(c, CONDITION) + [TQuestion] + (if t.Some? then Print(t.value, BRANCH) else []) + [TColon] + Print(f, BRANCH)
    case Dim(b, i) => Print(b, DIMENSION) + [TBracket] + (if i.Some? then Print(i.value, 0) else []) + [TEndBracket]
  }

  /** The buffer the printer appends to. */
  class Buffer {
    var text: seq<Token>

    constructor ()
      ensures text == []
    {
      text := [];
    }

    method Append(t: Token)
      modifies this
      ensures text == old(text) + [t]
    {
      text := text + [t];
    }

    /** Appends the source of an expression, in parentheses if the context binds tighter. */
    method Export(e: Expr, priority: int)
      modifies this
      ensures text == old(text) + Print(e, priority)
      decreases e, 1
    {
      hide Print, PrintBare;
      PrintIs(e, priority);
      if Wrapped(e, priority) { Append(TOpen); }
      ExportBare(e);
      if Wrapped(e, priority) { Append(TClose); }
    }

    method ExportBare(e: Expr)
      modifies this
      ensures text == old(text) + PrintBare(e)
      decreases e, 0
    {
      hide Print, PrintBare, BinaryPrio, SignOf, UnSignOf;
      PrintIs(e, 0);
      match e {
        case Var(x) => Append(TVar(x));
        case Num(n) => Append(TNum(n));
        case Binary(op, l, r) =>
          Export(l, BinaryPrio(op).left);
          Append(TSign(SignOf(op)));
          Export(r, BinaryPrio(op).right);
        case Unary(op, a) =>
          Append(TSign(UnSignOf(op)));
          Export(a, PREFIX_ARG);
        case Assignment(op, x, v) =>
          Append(TVar(x));
          Append(TAssign(op));
          Export(v, ASSIGN);
        case Conditional(c, t, f) => ExportConditional(e, c, t, f);
        case Dim(b, i) =>
          Export(b, DIMENSION);
          Append(TBracket);
          if i.Some? { Export(i.value, 0); }
          Append(TEndBracket);
      }
    }

    method ExportConditional(ghost e: Expr, c: Expr, t: Option<Expr>, f: Expr)
      requires e == Conditional(c, t, f)
      modifies this
      ensures text == old(text) + PrintBare(e)
      decreases e, 0, 0
    {
      hide Print, PrintBare;
      PrintIs(e, 0);
      Export(c, CONDITION);
      Append(TQuestion);
      if t.Some? { Export(t.value, BRANCH); }
      Append(TColon);
      Export(f, BRANCH);
    }
  }

  /** What is printed, piece by piece. */
  lemma PrintIs(e: Expr, priority: int)
    ensures Print(e, priority) == (if Wrapped(e, priority) then [TOpen] else []) + PrintBare(e) + (if Wrapped(e, priority) then [TClose] else [])
    ensures match e
            case Var(x) => PrintBare(e) == [TVar(x)]
            case Num(n) => PrintBare(e) == [TNum(n)]
            case Binary(op, l, r) =>
              PrintBare(e) == Print(l, BinaryPrio(op).left) + [TSign(SignOf(op))] + Print(r, BinaryPrio(op).right)
            case Unary(op, a) => PrintBare(e) == [TSign(UnSignOf(op))] + Print(a, PREFIX_ARG)
            case Assignment(op, x, v) => PrintBare(e) == [TVar(x), TAssign(op)] + Print(v, ASSIGN)
            case Conditional(c, t, f) =>
              PrintBare(e) == Print(c, CONDITION) + [TQuestion] + (if t.Some? then Print(t.value, BRANCH) else []) + [TColon] + Print(f, BRANCH)
            case Dim(b, i) =>
              PrintBare(e) == Print(b, DIMENSION) + [TBracket] + (if i.Some? then Print(i.value, 0) else []) + [TEndBracket]
  {}

  // ---- the documented table ----

  datatype Assoc = LeftAssoc | RightAssoc | NonAssoc

  /** One line of the table: how tight an operator binds, and to which side. */
  datatype Row = Row(priority: int, assoc: Assoc)

  function BinaryRow(op: BinOp): Row {
    match op
    case BoolXor => Row(40, LeftAssoc)
    case Coalesce => Row(110, RightAssoc)
    case Or => Row(120, LeftAssoc)
    case And => Row(130, LeftAssoc)
    case BwOr => Row(140, LeftAssoc)
    case BwXor => Row(150, LeftAssoc)
    case BwAnd => Row(160, LeftAssoc)
    case IsEqual => Row(170, NonAssoc)
    case IsNotEqual => Row(170, NonAssoc)
    case IsIdentical => Row(170, NonAssoc)
    case IsNotIdentical => Row(170, NonAssoc)
    case IsSmaller => Row(180, NonAssoc)
    case IsSmallerOrEqual => Row(180, NonAssoc)
    case IsGreater => Row(180, NonAssoc)
    case IsGreaterOrEqual => Row(180, NonAssoc)
    case Spaceship => Row(180, NonAssoc)
    case Sl => Row(190, LeftAssoc)
    case Sr => Row(190, LeftAssoc)
    case Add => Row(200, LeftAssoc)
    case Sub => Row(200, LeftAssoc)
    case Concat => Row(200, LeftAssoc)
    case Mul => Row(210, LeftAssoc)
    case Div => Row(210, LeftAssoc)
    case Mod => Row(210, LeftAssoc)
    case Pow => Row(250, RightAssoc)
  }

  /** ! binds looser than the other prefix operators in the table, though the printer treats them alike. */
  function UnaryRow(op: UnOp): Row {
    match op
    case BoolNot => Row(220, RightAssoc)
    case _ => Row(240, RightAssoc)
  }

  const ASSIGN_ROW: Row := Row(90, RightAssoc)
  const CONDITION_ROW: Row := Row(100, LeftAssoc)
  const DIMENSION_ROW: Row := Row(260, LeftAssoc)

  // ---- how many parentheses are printed ----

  /** Where an expression stands in the table; all prefix operators at 240, as the printer has them. */
  function TableOf(e: Expr): int {
    match e
    case Binary(op, _, _) => BinaryRow(op).priority
    case Unary(_, _) => 240
    case Assignment(_, _, _) => ASSIGN_ROW.priority
    case Conditional(_, _, _) => CONDITION_ROW.priority
    case _ => HIGHEST
  }

  /** The operand on the left binds looser than the operator, or as loose while the operator does not group to the left. */
  predicate LooseLeft(e: Expr, row: Row) {
    TableOf(e) < row.priority || (TableOf(e) == row.priority && row.assoc != LeftAssoc)
  }

  predicate LooseRight(e: Expr, row: Row) {
    TableOf(e) < row.priority || (TableOf(e) == row.priority && row.assoc != RightAssoc)
  }

  /** The operands that the table wants in parentheses; the operand of a prefix operator also when it is one itself. */
  function Demanded(e: Expr): nat {
    match e
    case Binary(op, l, r) => OneIf(LooseLeft(l, BinaryRow(op))) + Demanded(l) + OneIf(LooseRight(r, BinaryRow(op))) + Demanded(r)
    case Unary(_, a) => OneIf(TableOf(a) <= 240) + Demanded(a)
    case Assignment(_, _, v) => OneIf(LooseRight(v, ASSIGN_ROW)) + Demanded(v)
    case Conditional(c, t, f) =>
      OneIf(LooseLeft(c, CONDITION_ROW)) + Demanded(c)
      + (if t.Some? then OneIf(LooseRight(t.value, CONDITION_ROW)) + Demanded(t.value) else 0)
      + OneIf(LooseRight(f, CONDITION_ROW)) + Demanded(f)
    case Dim(b, i) => OneIf(LooseLeft(b, DIMENSION_ROW)) + Demanded(b) + if i.Some? then Demanded(i.value) else 0
    case _ => 0
  }

  function OneIf(b: bool): nat { if b then 1 else 0 }

  function Opens(ts: seq<Token>): nat {
    if ts == [] then 0 else OneIf(ts[0] == TOpen) + Opens(ts[1..])
  }

  lemma {:induction false} OpensPlus(a: seq<Token>, b: seq<Token>)
    ensures Opens(a + b) == Opens(a) + Opens(b)
    decreases |a|
  {
    if a == [] {
      assert a + b == b;
    } else {
      OpensPlus(a[1..], b);
      assert (a + b)[1..] == a[1..] + b;
    }
  }

  lemma OpensOne(t: Token)
    ensures Opens([t]) == OneIf(t == TOpen)
  {}

  lemma OpensPrint(e: Expr, q: int)
    requires Opens(PrintBare(e)) == Demanded(e)
    ensures Opens(Print(e, q)) == OneIf(Wrapped(e, q)) + Demanded(e)
  {
    hide PrintBare, Opens, Demanded, Wrapped;
    if Wrapped(e, q) {
      OpensPlus([TOpen] + PrintBare(e), [TClose]);
      OpensPlus([TOpen], PrintBare(e));
      OpensOne(TOpen);
      OpensOne(TClose);
    }
  }

  /** A context's priority asks for parentheses exactly when the table does. */
  lemma WrappedLikeTable(e: Expr, op: BinOp)
    ensures Wrapped(e, BinaryPrio(op).left) <==> LooseLeft(e, BinaryRow(op))
    ensures Wrapped(e, BinaryPrio(op).right) <==> LooseRight(e, BinaryRow(op))
    ensures Wrapped(e, PREFIX_ARG) <==> TableOf(e) <= 240
    ensures Wrapped(e, ASSIGN) <==> LooseRight(e, ASSIGN_ROW)
    ensures Wrapped(e, CONDITION) <==> LooseLeft(e, CONDITION_ROW)
    ensures Wrapped(e, BRANCH) <==> LooseRight(e, CONDITION_ROW)
    ensures Wrapped(e, DIMENSION) <==> LooseLeft(e, DIMENSION_ROW)
    ensures !Wrapped(e, 0)
  {
    OwnIsTable(e);
    PrintedLikeTable(op);
  }

  lemma OwnIsTable(e: Expr)
    ensures Own(e) == TableOf(e) && 0 < TableOf(e) && (e.Var? || e.Num? || e.Dim? <==> TableOf(e) == HIGHEST)
  {
    if e.Binary? {
      PrintedLikeTable(e.op);
    }
  }

  /** Parentheses are printed exactly around the operands that the table wants in parentheses. */
  lemma {:induction false} ParensDemanded(e: Expr)
    ensures Opens(PrintBare(e)) == Demanded(e)
    decreases e
  {
    hide Print, PrintBare, Opens, Wrapped, LooseLeft, LooseRight, BinaryPrio, BinaryRow, TableOf;
    PrintIs(e, 0);
    match e
    case Var(x) => OpensOne(TVar(x));
    case Num(n) => OpensOne(TNum(n));
    case Binary(op, l, r) =>
      ParensDemanded(l);
      ParensDemanded(r);
      WrappedLikeTable(l, op);
      WrappedLikeTable(r, op);
      OpensPrint(l, BinaryPrio(op).left);
      OpensPrint(r, BinaryPrio(op).right);
      var sign := [TSign(SignOf(op))];
      OpensOne(TSign(SignOf(op)));
      OpensPlus(Print(l, BinaryPrio(op).left) + sign, Print(r, BinaryPrio(op).right));
      OpensPlus(Print(l, BinaryPrio(op).left), sign);
    case Unary(op, a) =>
      ParensDemanded(a);
      WrappedLikeTable(a, Add);
      OpensPrint(a, PREFIX_ARG);
      OpensOne(TSign(UnSignOf(op)));
      OpensPlus([TSign(UnSignOf(op))], Print(a, PREFIX_ARG));
    case Assignment(op, x, v) =>
      ParensDemanded(v);
      WrappedLikeTable(v, Add);
      OpensPrint(v, ASSIGN);
      OpensOne(TVar(x));
      OpensOne(TAssign(op));
      OpensPlus([TVar(x), TAssign(op)], Print(v, ASSIGN));
      OpensPlus([TVar(x)], [TAssign(op)]);
      assert [TVar(x), TAssign(op)] == [TVar(x)] + [TAssign(op)];
    case Conditional(c, t, f) =>
      ParensConditional(c, t, f);
    case Dim(b, i) =>
      ParensDim(b, i);
  }

  lemma {:induction false} ParensConditional(c: Expr, t: Option<Expr>, f: Expr)
    ensures Opens(PrintBare(Conditional(c, t, f))) == Demanded(Conditional(c, t, f))
    decreases Conditional(c, t, f), 0
  {
    hide Print, PrintBare, Opens, Wrapped, LooseLeft, LooseRight, BinaryPrio, BinaryRow, TableOf;
    PrintIs(Conditional(c, t, f), 0);
    ParensDemanded(c);
    ParensDemanded(f);
    WrappedLikeTable(c, Add);
    WrappedLikeTable(f, Add);
    OpensPrint(c, CONDITION);
    OpensPrint(f, BRANCH);
    OpensOne(TQuestion);
    OpensOne(TColon);
    if t.Some? {
      ParensDemanded(t.value);
      WrappedLikeTable(t.value, Add);
      OpensPrint(t.value, BRANCH);
    } else {
      OpensNone();
    }
    var first, middle, last := Print(c, CONDITION), (if t.Some? then Print(t.value, BRANCH) else []), Print(f, BRANCH);
    OpensPlus(first + [TQuestion] + middle + [TColon], last);
    OpensPlus(first + [TQuestion] + middle, [TColon]);
    OpensPlus(first + [TQuestion], middle);
    OpensPlus(first, [TQuestion]);
  }

  lemma OpensNone()
    ensures Opens([]) == 0
  {}

  lemma {:induction false} ParensDim(b: Expr, i: Option<Expr>)
    ensures Opens(PrintBare(Dim(b, i))) == Demanded(Dim(b, i))
    decreases Dim(b, i), 0
  {
    hide Print, PrintBare, Opens, Wrapped, LooseLeft, LooseRight, BinaryPrio, BinaryRow, TableOf;
    PrintIs(Dim(b, i), 0);
    ParensDemanded(b);
    WrappedLikeTable(b, Add);
    OpensPrint(b, DIMENSION);
    OpensOne(TBracket);
    OpensOne(TEndBracket);
    if i.Some? {
      ParensDemanded(i.value);
      WrappedLikeTable(i.value, Add);
      OpensPrint(i.value, 0);
    } else {
      OpensNone();
    }
    var first, middle := Print(b, DIMENSION), if i.Some? then Print(i.value, 0) else [];
    OpensPlus(first + [TBracket] + middle, [TEndBracket]);
    OpensPlus(first + [TBracket], middle);
    OpensPlus(first, [TBracket]);
  }

  // ---- the parser ----

  function BinaryOf(sign: Sign): Option<BinOp> {
    match sign
    case PlusSign => Some(Add)
    case MinusSign => Some(Sub)
    case Times => Some(Mul)
    case Slash => Some(Div)
    case Percent => Some(Mod)
    case ShiftLeft => Some(Sl)
    case ShiftRight => Some(Sr)
    case Dot => Some(Concat)
    case Bar => Some(BwOr)
    case Ampersand => Some(BwAnd)
    case Caret => Some(BwXor)
    case EqEqEq => Some(IsIdentical)
    case NotEqEq => Some(IsNotIdentical)
    case EqEq => Some(IsEqual)
    case NotEq => Some(IsNotEqual)
    case Less => Some(IsSmaller)
    case LessEq => Some(IsSmallerOrEqual)
    case LessEqGreater => Some(Spaceship)
    case Greater => Some(IsGreater)
    case GreaterEq => Some(IsGreaterOrEqual)
    case Power => Some(Pow)
    case XorWord => Some(BoolXor)
    case AndAnd => Some(And)
    case OrOr => Some(Or)
    case QuestionQuestion => Some(Coalesce)
    case _ => None
  }

  function UnaryOf(sign: Sign): Option<UnOp> {
    match sign
    case PlusSign => Some(Plus)
    case MinusSign => Some(Minus)
    case Tilde => Some(BwNot)
    case Bang => Some(BoolNot)
    case At => Some(Silence)
    case _ => None
  }

  /** The table row of a token that can follow an operand. */
  function RowOf(t: Token): Option<Row> {
    match t
    case TSign(s) => if BinaryOf(s).Some? then Some(BinaryRow(BinaryOf(s).value)) else None
    case TAssign(_) => Some(ASSIGN_ROW)
    case TQuestion => Some(CONDITION_ROW)
    case TBracket => Some(DIMENSION_ROW)
    case _ => None
  }

  /** The least priority the right operand of an operator may have. */
  function RightMin(row: Row): int {
    if row.assoc.RightAssoc? then row.priority else row.priority + 1
  }

  /** The highest priority that may follow an operation on the same level. */
  function Limit(row: Row): int {
    if row.assoc.NonAssoc? then row.priority - 1 else row.priority
  }

  datatype Result = Fail | Parsed(expr: Expr, rest: seq<Token>)

  /** Precedence climbing: an operand, then operators of at least the given priority. */
  function ParseExpr(ts: seq<Token>, min: int): (r: Result)
    ensures r.Parsed? ==> |r.rest| < |ts|
    decreases |ts|, 2
  {
    match ParseOperand(ts)
    case Fail => Fail
    case Parsed(e, rest) => ParseRest(e, rest, min, HIGHEST)
  }

  function ParseOperand(ts: seq<Token>): (r: Result)
    ensures r.Parsed? ==> |r.rest| < |ts|
    decreases |ts|, 1
  {
    if ts == [] then Fail
    else
      match ts[0]
      case TVar(x) => Parsed(Var(x), ts[1..])
      case TNum(n) => Parsed(Num(n), ts[1..])
      case TOpen =>
        (match ParseExpr(ts[1..], 0)
         case Fail => Fail
         case Parsed(e, rest) => if rest != [] && rest[0] == TClose then Parsed(e, rest[1..]) else Fail)
      case TSign(s) =>
        (match UnaryOf(s)
         case None => Fail
         case Some(op) =>
           match ParseExpr(ts[1..], UnaryRow(op).priority)
           case Fail => Fail
           case Parsed(e, rest) => Parsed(Unary(op, e), rest))
      case _ => Fail
  }

  function ParseRest(left: Expr, ts: seq<Token>, min: int, limit: int): (r: Result)
    ensures r.Parsed? ==> |r.rest| <= |ts|
    decreases |ts|, 3
  {
    if ts == [] || RowOf(ts[0]).None? || RowOf(ts[0]).value.priority < min then Parsed(left, ts)
    else
      var row := RowOf(ts[0]).value;
      if row.priority > limit then Fail
      else
        match ts[0]
        case TSign(s) =>
          (match ParseExpr(ts[1..], RightMin(row))
           case Fail => Fail
           case Parsed(right, rest) => ParseRest(Binary(BinaryOf(s).value, left, right), rest, min, Limit(row)))
        case TAssign(op) =>
          if !left.Var? then Fail
          else
            (match ParseExpr(ts[1..], RightMin(row))
             case Fail => Fail
             case Parsed(value, rest) => ParseRest(Assignment(op, left.name, value), rest, min, Limit(row)))
        case TQuestion =>
          if ts[1..] != [] && ts[1] == TColon then
            match ParseExpr(ts[2..], RightMin(row))
            case Fail => Fail
            case Parsed(f, rest) => ParseRest(Conditional(left, None, f), rest, min, Limit(row))
          else
            (match ParseExpr(ts[1..], 0)
             case Fail => Fail
             case Parsed(t, mid) =>
               if mid != [] && mid[0] == TColon then
                 match ParseExpr(mid[1..], RightMin(row))
                 case Fail => Fail
                 case Parsed(f, rest) => ParseRest(Conditional(left, Some(t), f), rest, min, Limit(row))
               else Fail)
        case TBracket =>
          if ts[1..] != [] && ts[1] == TEndBracket then ParseRest(Dim(left, None), ts[2..], min, Limit(row))
          else
            (match ParseExpr(ts[1..], 0)
             case Fail => Fail
             case Parsed(i, mid) =>
               if mid != [] && mid[0] == TEndBracket then ParseRest(Dim(left, Some(i)), mid[1..], min, Limit(row)) else Fail)
        case _ => Fail
  }

  // ---- printing and parsing again ----

  /** The priorities operands are printed at; none lies in the gap where ! binds looser than it is printed. */
  predicate Context(q: int) {
    0 <= q <= 211 || 241 <= q <= 260
  }

  /** The printer's priorities are those of the table. */
  lemma PrintedLikeTable(op: BinOp)
    ensures var p, row := BinaryPrio(op), BinaryRow(op);
            && p.own == row.priority && p.right == RightMin(row)
            && p.left == (if row.assoc.LeftAssoc? then row.priority else row.priority + 1)
            && Context(p.left) && Context(p.right) && 0 < p.own && p.own != 90 && p.own != 100
            && (p.own <= 210 || p.own == 250)
    ensures BinaryPrio(op).own == 250 ==> BinaryPrio(op).left == 251 && BinaryPrio(op).right == 250
  {}

  /** A sign between two operands tells the operator. */
  lemma SignTells(op: BinOp)
    ensures RowOf(TSign(SignOf(op))) == Some(BinaryRow(op)) && BinaryOf(SignOf(op)) == Some(op)
  {
    hide BinaryRow;
  }

  lemma OneAssoc(op: BinOp, op': BinOp)
    requires BinaryRow(op).priority == BinaryRow(op').priority
    ensures BinaryRow(op).assoc == BinaryRow(op').assoc
  {}

  /** The priority of the next operator after an operand, or -1. */
  function Next(ts: seq<Token>): int {
    if ts == [] || RowOf(ts[0]).None? then -1 else RowOf(ts[0]).value.priority
  }

  /** An operator tighter than this would be taken into e by the parser. */
  function Edge(e: Expr, q: int): int
    decreases e
  {
    if Wrapped(e, q) then HIGHEST
    else
      match e
      case Binary(op, _, r) => Least(BinaryPrio(op).right, Edge(r, BinaryPrio(op).right))
      case Unary(op, a) => Least(UnaryRow(op).priority, Edge(a, PREFIX_ARG))
      case Assignment(_, _, v) => Least(ASSIGN, Edge(v, ASSIGN))
      case Conditional(_, _, f) => Least(BRANCH, Edge(f, BRANCH))
      case _ => HIGHEST
  }

  function Least(a: int, b: int): (m: int)
    ensures m <= a && m <= b && (m == a || m == b)
  {
    if a < b then a else b
  }

  /** The limit the parser has after reading e. */
  function After(e: Expr, q: int): int {
    if Wrapped(e, q) then HIGHEST
    else
      match e
      case Binary(op, _, _) => Limit(BinaryRow(op))
      case Assignment(_, _, _) => ASSIGN
      case Conditional(_, _, _) => CONDITION
      case Dim(_, _) => DIMENSION
      case _ => HIGHEST
  }

  lemma {:induction false} EdgeAbove(e: Expr, q: int)
    requires Context(q)
    ensures Edge(e, q) >= q
    decreases e
  {
    match e {
      case Binary(op, _, r) =>
        PrintedLikeTable(op);
        EdgeAbove(r, BinaryPrio(op).right);
      case Unary(_, a) => EdgeAbove(a, PREFIX_ARG);
      case Assignment(_, _, v) => EdgeAbove(v, ASSIGN);
      case Conditional(_, _, f) => EdgeAbove(f, BRANCH);
      case _ =>
    }
  }

  /** A left operand ends before the operator it is printed for. */
  lemma EdgeBeyond(l: Expr, op: BinOp)
    ensures Edge(l, BinaryPrio(op).left) > BinaryPrio(op).own
    ensures After(l, BinaryPrio(op).left) >= BinaryPrio(op).own
  {
    hide Edge;
    PrintedLikeTable(op);
    var p, q := BinaryPrio(op).own, BinaryPrio(op).left;
    EdgeAbove(l, q);
    EdgeIs(l, q);
    match l {
      case Binary(op', _, r) =>
        PrintedLikeTable(op');
        EdgeAbove(r, BinaryPrio(op').right);
        if BinaryPrio(op').own == p { OneAssoc(op, op'); }
      case Unary(_, a) => EdgeAbove(a, PREFIX_ARG);
      case Assignment(_, _, v) => EdgeAbove(v, ASSIGN);
      case Conditional(_, _, f) => EdgeAbove(f, BRANCH);
      case _ =>
    }
  }

  lemma EdgeIs(e: Expr, q: int)
    ensures Wrapped(e, q) ==> Edge(e, q) == HIGHEST
    ensures !Wrapped(e, q) ==>
              match e
              case Binary(op, _, r) => Edge(e, q) == Least(BinaryPrio(op).right, Edge(r, BinaryPrio(op).right))
              case Unary(op, a) => Edge(e, q) == Least(UnaryRow(op).priority, Edge(a, PREFIX_ARG))
              case Assignment(_, _, v) => Edge(e, q) == Least(ASSIGN, Edge(v, ASSIGN))
              case Conditional(_, _, f) => Edge(e, q) == Least(BRANCH, Edge(f, BRANCH))
              case _ => Edge(e, q) == HIGHEST
  {}

  lemma EdgeOfCondition(c: Expr)
    ensures Edge(c, CONDITION) > CONDITION && After(c, CONDITION) >= CONDITION
  {
    hide Edge;
    EdgeAbove(c, CONDITION);
    EdgeIs(c, CONDITION);
    match c {
      case Binary(op, _, r) =>
        PrintedLikeTable(op);
        EdgeAbove(r, BinaryPrio(op).right);
      case Unary(_, a) => EdgeAbove(a, PREFIX_ARG);
      case Conditional(_, _, f) => EdgeAbove(f, BRANCH);
      case _ =>
    }
  }

  lemma EdgeOfBase(b: Expr)
    ensures Edge(b, DIMENSION) == HIGHEST && After(b, DIMENSION) >= DIMENSION
  {
    match b {
      case Binary(op, _, _) => PrintedLikeTable(op);
      case _ =>
    }
  }

  /** The parser stops when the next operator is too loose. */
  lemma Stops(e: Expr, ts: seq<Token>, min: int, limit: int)
    requires Next(ts) < min
    ensures ParseRest(e, ts, min, limit) == Parsed(e, ts)
  {}

  /** Reading what was printed leaves the parser behind e, with the rest still to come. */
  ghost predicate Reads(e: Expr, q: int, rest: seq<Token>, min: int) {
    ParseExpr(Print(e, q) + rest, min) == ParseRest(e, rest, min, After(e, q))
  }

  lemma {:induction false} PrintedReads(e: Expr, q: int, rest: seq<Token>, min: int)
    requires Context(q) && min <= q && Next(rest) < Edge(e, q)
    ensures Reads(e, q, rest, min)
    decreases e, if Wrapped(e, q) then 1 else 0
  {
    hide ParseExpr, ParseRest, ParseOperand, Print, PrintBare, Edge, BinaryPrio, BinaryRow;
    if Wrapped(e, q) {
      OwnPositive(e);
      EdgeAbove(e, 0);
      PrintedReads(e, 0, [TClose] + rest, 0);
      ReadsParens(e, q, rest, min);
    } else {
      EdgeIs(e, q);
      match e {
        case Var(x) => ReadsAtom(e, q, rest, min);
        case Num(n) => ReadsAtom(e, q, rest, min);
        case Binary(op, l, r) =>
          PrintedLikeTable(op);
          SignTells(op);
          EdgeBeyond(l, op);
          var more := [TSign(SignOf(op))] + Print(r, BinaryPrio(op).right) + rest;
          PrintedReads(l, BinaryPrio(op).left, more, min);
          PrintedReads(r, BinaryPrio(op).right, rest, BinaryPrio(op).right);
          ReadsBinary(op, l, r, q, rest, min);
        case Unary(op, a) =>
          PrintedReads(a, PREFIX_ARG, rest, UnaryRow(op).priority);
          ReadsUnary(op, a, q, rest, min);
        case Assignment(op, x, v) =>
          PrintedReads(v, ASSIGN, rest, ASSIGN);
          ReadsAssignment(op, x, v, q, rest, min);
        case Conditional(c, t, f) =>
          EdgeOfCondition(c);
          PrintedReads(f, BRANCH, rest, BRANCH);
          var tail := [TColon] + Print(f, BRANCH) + rest;
          var mid := if t.Some? then Print(t.value, BRANCH) else [];
          PrintedReads(c, CONDITION, [TQuestion] + mid + tail, min);
          if t.Some? {
            EdgeAbove(t.value, BRANCH);
            PrintedReads(t.value, BRANCH, tail, 0);
            ReadsConditional(c, t.value, f, q, rest, min);
          } else {
            ReadsShort(c, f, q, rest, min);
          }
        case Dim(b, i) =>
          EdgeOfBase(b);
          var mid := if i.Some? then Print(i.value, 0) else [];
          PrintedReads(b, DIMENSION, [TBracket] + mid + [TEndBracket] + rest, min);
          if i.Some? {
            EdgeAbove(i.value, 0);
            PrintedReads(i.value, 0, [TEndBracket] + rest, 0);
            ReadsDim(b, i.value, q, rest, min);
          } else {
            ReadsEmptyDim(b, q, rest, min);
          }
      }
    }
  }

  lemma OwnPositive(e: Expr)
    ensures Own(e) > 0
  {
    if e.Binary? { PrintedLikeTable(e.op); }
  }

  // ---- the parser, step by step ----

  lemma OperandFirst(ts: seq<Token>, min: int, e: Expr, rest: seq<Token>)
    requires ParseOperand(ts) == Parsed(e, rest)
    ensures ParseExpr(ts, min) == ParseRest(e, rest, min, HIGHEST)
  {
    hide ParseOperand, ParseRest;
  }

  lemma OperandAtom(x: string, n: nat, rest: seq<Token>)
    ensures ParseOperand([TVar(x)] + rest) == Parsed(Var(x), rest)
    ensures ParseOperand([TNum(n)] + rest) == Parsed(Num(n), rest)
  {
    hide ParseExpr;
    assert ([TVar(x)] + rest)[1..] == rest && ([TNum(n)] + rest)[1..] == rest;
  }

  lemma OperandParens(ts: seq<Token>, e: Expr, rest: seq<Token>)
    requires ParseExpr(ts, 0) == Parsed(e, [TClose] + rest)
    ensures ParseOperand([TOpen] + ts) == Parsed(e, rest)
  {
    hide ParseExpr;
    assert ([TOpen] + ts)[1..] == ts && ([TClose] + rest)[1..] == rest;
  }

  lemma OperandUnary(op: UnOp, ts: seq<Token>, a: Expr, rest: seq<Token>)
    requires ParseExpr(ts, UnaryRow(op).priority) == Parsed(a, rest)
    ensures ParseOperand([TSign(UnSignOf(op))] + ts) == Parsed(Unary(op, a), rest)
  {
    hide ParseExpr;
    assert ([TSign(UnSignOf(op))] + ts)[1..] == ts;
  }

  lemma RestBinary(left: Expr, op: BinOp, ts: seq<Token>, right: Expr, rest: seq<Token>, min: int, limit: int)
    requires min <= BinaryRow(op).priority <= limit && ParseExpr(ts, RightMin(BinaryRow(op))) == Parsed(right, rest)
    ensures ParseRest(left, [TSign(SignOf(op))] + ts, min, limit) == ParseRest(Binary(op, left, right), rest, min, Limit(BinaryRow(op)))
  {
    hide ParseExpr, ParseOperand, BinaryRow, RightMin, Limit, SignOf, BinaryOf;
    SignTells(op);
    assert ([TSign(SignOf(op))] + ts)[1..] == ts;
  }

  lemma RestAssignment(x: string, op: AssignOp, ts: seq<Token>, v: Expr, rest: seq<Token>, min: int)
    requires min <= ASSIGN && ParseExpr(ts, ASSIGN) == Parsed(v, rest)
    ensures ParseRest(Var(x), [TAssign(op)] + ts, min, HIGHEST) == ParseRest(Assignment(op, x, v), rest, min, Limit(ASSIGN_ROW))
  {
    hide ParseExpr, ParseOperand;
    assert ([TAssign(op)] + ts)[1..] == ts;
  }

  lemma RestConditional(left: Expr, ts: seq<Token>, t: Expr, ts': seq<Token>, f: Expr, rest: seq<Token>, min: int, limit: int)
    requires min <= CONDITION <= limit && ts != [] && ts[0] != TColon
    requires ParseExpr(ts, 0) == Parsed(t, [TColon] + ts') && ParseExpr(ts', BRANCH) == Parsed(f, rest)
    ensures ParseRest(left, [TQuestion] + ts, min, limit) == ParseRest(Conditional(left, Some(t), f), rest, min, Limit(CONDITION_ROW))
  {
    hide ParseExpr, ParseOperand;
    assert ([TQuestion] + ts)[1..] == ts && ([TColon] + ts')[1..] == ts';
  }

  lemma RestShort(left: Expr, ts: seq<Token>, f: Expr, rest: seq<Token>, min: int, limit: int)
    requires min <= CONDITION <= limit && ParseExpr(ts, BRANCH) == Parsed(f, rest)
    ensures ParseRest(left, [TQuestion, TColon] + ts, min, limit) == ParseRest(Conditional(left, None, f), rest, min, Limit(CONDITION_ROW))
  {
    hide ParseExpr, ParseOperand;
    assert ([TQuestion, TColon] + ts)[2..] == ts;
  }

  lemma RestDim(left: Expr, ts: seq<Token>, i: Expr, rest: seq<Token>, min: int, limit: int)
    requires min <= DIMENSION <= limit && ts != [] && ts[0] != TEndBracket && ParseExpr(ts, 0) == Parsed(i, [TEndBracket] + rest)
    ensures ParseRest(left, [TBracket] + ts, min, limit) == ParseRest(Dim(left, Some(i)), rest, min, Limit(DIMENSION_ROW))
  {
    hide ParseExpr, ParseOperand;
    assert ([TBracket] + ts)[1..] == ts && ([TEndBracket] + rest)[1..] == rest;
  }

  lemma RestEmptyDim(left: Expr, rest: seq<Token>, min: int, limit: int)
    requires min <= DIMENSION <= limit
    ensures ParseRest(left, [TBracket, TEndBracket] + rest, min, limit) == ParseRest(Dim(left, None), rest, min, Limit(DIMENSION_ROW))
  {
    hide ParseExpr, ParseOperand;
    assert ([TBracket, TEndBracket] + rest)[2..] == rest;
  }

  // ---- reading what was printed ----

  lemma ReadsAtom(e: Expr, q: int, rest: seq<Token>, min: int)
    requires e.Var? || e.Num?
    ensures Reads(e, q, rest, min)
  {
    hide ParseRest, ParseExpr, ParseOperand, Print;
    PrintIs(e, q);
    OperandAtom(if e.Var? then e.name else "", if e.Num? then e.n else 0, rest);
    assert Print(e, q) == PrintBare(e);
    OperandFirst(Print(e, q) + rest, min, e, rest);
  }

  lemma ReadsParens(e: Expr, q: int, rest: seq<Token>, min: int)
    requires Wrapped(e, q) && Own(e) > 0 && Reads(e, 0, [TClose] + rest, 0)
    ensures Reads(e, q, rest, min)
  {
    hide ParseRest, ParseExpr, ParseOperand, Print, PrintBare, Own;
    PrintIs(e, q);
    PrintIs(e, 0);
    Stops(e, [TClose] + rest, 0, After(e, 0));
    var inner := Print(e, 0) + ([TClose] + rest);
    assert Print(e, 0) == PrintBare(e);
    assert Print(e, q) + rest == [TOpen] + inner;
    OperandParens(inner, e, rest);
    OperandFirst(Print(e, q) + rest, min, e, rest);
  }

  lemma ReadsBinary(op: BinOp, l: Expr, r: Expr, q: int, rest: seq<Token>, min: int)
    requires q <= BinaryPrio(op).own && min <= q && Next(rest) < BinaryPrio(op).right
    requires After(l, BinaryPrio(op).left) >= BinaryPrio(op).own
    requires Reads(l, BinaryPrio(op).left, [TSign(SignOf(op))] + Print(r, BinaryPrio(op).right) + rest, min)
    requires Reads(r, BinaryPrio(op).right, rest, BinaryPrio(op).right)
    ensures Reads(Binary(op, l, r), q, rest, min)
  {
    hide ParseExpr, ParseRest, ParseOperand, Print, PrintBare, After, SignOf, BinaryPrio, BinaryRow, RightMin, Limit;
    PrintedLikeTable(op);
    var e, p := Binary(op, l, r), BinaryPrio(op);
    PrintIs(e, q);
    var ts := Print(r, p.right) + rest;
    assert Print(e, q) + rest == Print(l, p.left) + ([TSign(SignOf(op))] + Print(r, p.right) + rest);
    assert [TSign(SignOf(op))] + Print(r, p.right) + rest == [TSign(SignOf(op))] + ts;
    Stops(r, rest, p.right, After(r, p.right));
    RestBinary(l, op, ts, r, rest, min, After(l, p.left));
    AfterBinary(op, l, r, q);
  }

  lemma AfterBinary(op: BinOp, l: Expr, r: Expr, q: int)
    requires q <= BinaryPrio(op).own
    ensures After(Binary(op, l, r), q) == Limit(BinaryRow(op))
  {}

  lemma ReadsUnary(op: UnOp, a: Expr, q: int, rest: seq<Token>, min: int)
    requires q <= PREFIX && Next(rest) < UnaryRow(op).priority && Reads(a, PREFIX_ARG, rest, UnaryRow(op).priority)
    ensures Reads(Unary(op, a), q, rest, min)
  {
    hide ParseRest, Print, ParseExpr, ParseOperand, PrintBare, UnaryRow;
    var e, ts := Unary(op, a), Print(a, PREFIX_ARG) + rest;
    PrintIs(e, q);
    assert Print(e, q) + rest == [TSign(UnSignOf(op))] + ts;
    Stops(a, rest, UnaryRow(op).priority, After(a, PREFIX_ARG));
    OperandUnary(op, ts, a, rest);
    OperandFirst(Print(e, q) + rest, min, e, rest);
  }

  lemma ReadsAssignment(op: AssignOp, x: string, v: Expr, q: int, rest: seq<Token>, min: int)
    requires q <= ASSIGN && min <= q && Next(rest) < ASSIGN && Reads(v, ASSIGN, rest, ASSIGN)
    ensures Reads(Assignment(op, x, v), q, rest, min)
  {
    hide Print, After, ParseExpr, ParseRest, ParseOperand, PrintBare;
    var e, ts := Assignment(op, x, v), Print(v, ASSIGN) + rest;
    PrintIs(e, q);
    assert Print(e, q) + rest == [TVar(x)] + ([TAssign(op)] + ts);
    Stops(v, rest, ASSIGN, After(v, ASSIGN));
    OperandAtom(x, 0, [TAssign(op)] + ts);
    OperandFirst(Print(e, q) + rest, min, Var(x), [TAssign(op)] + ts);
    RestAssignment(x, op, ts, v, rest, min);
    AfterAssignment(op, x, v, q);
  }

  lemma AfterAssignment(op: AssignOp, x: string, v: Expr, q: int)
    requires q <= ASSIGN
    ensures After(Assignment(op, x, v), q) == Limit(ASSIGN_ROW)
  {}

  lemma ReadsConditional(c: Expr, t: Expr, f: Expr, q: int, rest: seq<Token>, min: int)
    requires q <= CONDITION && min <= q && Next(rest) < BRANCH && After(c, CONDITION) >= CONDITION
    requires Reads(c, CONDITION, [TQuestion] + Print(t, BRANCH) + ([TColon] + Print(f, BRANCH) + rest), min)
    requires Reads(t, BRANCH, [TColon] + Print(f, BRANCH) + rest, 0) && Reads(f, BRANCH, rest, BRANCH)
    ensures Reads(Conditional(c, Some(t), f), q, rest, min)
  {
    hide ParseExpr, Print, After, ParseOperand, ParseRest, PrintBare;
    var e := Conditional(c, Some(t), f);
    PrintIs(e, q);
    var ts' := Print(f, BRANCH) + rest;
    var tail := [TColon] + Print(f, BRANCH) + rest;
    var ts := Print(t, BRANCH) + tail;
    assert tail == [TColon] + ts';
    assert Print(e, q) + rest == Print(c, CONDITION) + ([TQuestion] + Print(t, BRANCH) + tail);
    assert [TQuestion] + Print(t, BRANCH) + tail == [TQuestion] + ts;
    Stops(t, tail, 0, After(t, BRANCH));
    Stops(f, rest, BRANCH, After(f, BRANCH));
    FirstToken(t, BRANCH, tail);
    RestConditional(c, ts, t, ts', f, rest, min, After(c, CONDITION));
    AfterConditional(c, Some(t), f, q);
  }

  lemma AfterConditional(c: Expr, t: Option<Expr>, f: Expr, q: int)
    requires q <= CONDITION
    ensures After(Conditional(c, t, f), q) == Limit(CONDITION_ROW)
  {}

  lemma ReadsShort(c: Expr, f: Expr, q: int, rest: seq<Token>, min: int)
    requires q <= CONDITION && min <= q && Next(rest) < BRANCH && After(c, CONDITION) >= CONDITION
    requires Reads(c, CONDITION, [TQuestion] + [] + ([TColon] + Print(f, BRANCH) + rest), min)
    requires Reads(f, BRANCH, rest, BRANCH)
    ensures Reads(Conditional(c, None, f), q, rest, min)
  {
    hide ParseExpr, Print, After, ParseOperand, ParseRest, PrintBare;
    var e := Conditional(c, None, f);
    PrintIs(e, q);
    var more := [TQuestion] + [] + ([TColon] + Print(f, BRANCH) + rest);
    assert Print(e, q) + rest == Print(c, CONDITION) + more;
    assert more == [TQuestion, TColon] + (Print(f, BRANCH) + rest);
    Stops(f, rest, BRANCH, After(f, BRANCH));
    RestShort(c, Print(f, BRANCH) + rest, f, rest, min, After(c, CONDITION));
    AfterConditional(c, None, f, q);
  }

  /** No expression starts with a colon or a closing bracket. */
  lemma {:induction false} FirstToken(e: Expr, q: int, rest: seq<Token>)
    ensures var ts := Print(e, q) + rest; ts != [] && ts[0] != TColon && ts[0] != TEndBracket
    decreases e
  {
    PrintIs(e, q);
    hide Print;
    match e {
      case Binary(op, l, _) => FirstToken(l, BinaryPrio(op).left, []);
      case Conditional(c, _, _) => FirstToken(c, CONDITION, []);
      case Dim(b, _) => FirstToken(b, DIMENSION, []);
      case _ =>
    }
  }

  lemma ReadsDim(b: Expr, i: Expr, q: int, rest: seq<Token>, min: int)
    requires q <= DIMENSION && min <= q && After(b, DIMENSION) >= DIMENSION
    requires Reads(b, DIMENSION, [TBracket] + Print(i, 0) + [TEndBracket] + rest, min)
    requires Reads(i, 0, [TEndBracket] + rest, 0)
    ensures Reads(Dim(b, Some(i)), q, rest, min)
  {
    hide ParseExpr, Print, After, ParseOperand, ParseRest, PrintBare;
    var e := Dim(b, Some(i));
    PrintIs(e, q);
    var tail := [TEndBracket] + rest;
    var ts := Print(i, 0) + tail;
    var more := [TBracket] + Print(i, 0) + [TEndBracket] + rest;
    assert Print(e, q) + rest == Print(b, DIMENSION) + more;
    assert more == [TBracket] + ts;
    Stops(i, tail, 0, After(i, 0));
    FirstToken(i, 0, tail);
    RestDim(b, ts, i, rest, min, After(b, DIMENSION));
    AfterDim(b, Some(i), q);
  }

  lemma AfterDim(b: Expr, i: Option<Expr>, q: int)
    ensures After(Dim(b, i), q) == Limit(DIMENSION_ROW)
  {}

  lemma ReadsEmptyDim(b: Expr, q: int, rest: seq<Token>, min: int)
    requires q <= DIMENSION && min <= q && After(b, DIMENSION) >= DIMENSION
    requires Reads(b, DIMENSION, [TBracket] + [] + [TEndBracket] + rest, min)
    ensures Reads(Dim(b, None), q, rest, min)
  {
    hide ParseExpr, Print, After, ParseOperand, ParseRest, PrintBare;
    var e := Dim(b, None);
    PrintIs(e, q);
    var more := [TBracket] + [] + [TEndBracket] + rest;
    assert Print(e, q) + rest == Print(b, DIMENSION) + more;
    assert more == [TBracket, TEndBracket] + rest;
    RestEmptyDim(b, rest, min, After(b, DIMENSION));
    AfterDim(b, None, q);
  }

  /** Printing an expression and parsing it by the documented table gives the expression back. */
  lemma RoundTrip(e: Expr)
    ensures ParseExpr(Print(e, 0), 0) == Parsed(e, [])
  {
    hide ParseExpr, ParseRest, Print;
    EdgeAbove(e, 0);
    PrintedReads(e, 0, [], 0);
    assert Print(e, 0) + [] == Print(e, 0);
    Stops(e, [], 0, After(e, 0));
  }

  /** Different expressions print differently. */
  lemma Unambiguous(e: Expr, f: Expr)
    requires Print(e, 0) == Print(f, 0)
    ensures e == f
  {
    hide ParseExpr, Print;
    RoundTrip(e);
    RoundTrip(f);
  }
}
