/** Expanding a parametrized test row by row (scripts/audit_tests.py): the rebinding check, the closed
    literals, the substitution of parameter names, and why the expansion runs like the original.

    The language has immutable values, functions that capture their scopes by reference, and the
    binding forms of the check: assignments, loop and comprehension targets, nested functions and
    lambdas with their parameters, exception names, deletions and nonlocal declarations. */
module ParamSubstitution {

  datatype Option<+T> = None | Some(value: T)

  datatype Atom = NoneAtom | Bool(b: bool) | Int(n: int) | Str(s: string)

  datatype Expr =
    | Const(atom: Atom)
    | Name(id: string)
    | TupleOf(elts: seq<Expr>)
    | Neg(operand: Expr)
    | Prim(op: string, args: seq<Expr>)               // any pure operation on first-order values
    | IfExp(test: Expr, yes: Expr, no: Expr)
    | Call(fn: Expr, args: seq<Expr>)
    | Lambda(params: seq<string>, value: Expr)
    | Comprehension(elt: Expr, target: string, iter: Expr)
    | NamedExpr(id: string, value: Expr)

  datatype Stmt =
    | Assign(id: string, value: Expr)
    | ExprStmt(value: Expr)
    | Return(value: Expr)
    | Assert(test: Expr)
    | Raise(value: Expr)
    | If(test: Expr, yes: seq<Stmt>, no: seq<Stmt>)
    | While(test: Expr, body: seq<Stmt>)
    | For(target: string, iter: Expr, body: seq<Stmt>)
    | Def(id: string, params: seq<string>, body: seq<Stmt>)
    | Try(body: seq<Stmt>, name: string, handler: seq<Stmt>)
    | Delete(id: string)
    | Nonlocal(ids: set<string>)

  // ----- Names bound anywhere, and names local to one function -----

  function Names(s: seq<string>): set<string> {
    set x | x in s
  }

  /** Names that some node of the expression binds. */
  function Bound(e: Expr): set<string> {
    match e
    case Const(_) => {}
    case Name(_) => {}
    case TupleOf(elts) => BoundAll(elts)
    case Neg(operand) => Bound(operand)
    case Prim(_, args) => BoundAll(args)
    case IfExp(test, yes, no) => Bound(test) + Bound(yes) + Bound(no)
    case Call(fn, args) => Bound(fn) + BoundAll(args)
    case Lambda(params, value) => Names(params) + Bound(value)
    case Comprehension(elt, target, iter) => {target} + Bound(elt) + Bound(iter)
    case NamedExpr(id, value) => {id} + Bound(value)
  }

  function BoundAll(es: seq<Expr>): set<string> {
    if es == [] then {} else Bound(es[0]) + BoundAll(es[1..])
  }

  /** Names that some node of the statement binds or declares: the union of the rebinding check. */
  function Rebound(st: Stmt): set<string> {
    match st
    case Assign(id, value) => {id} + Bound(value)
    case ExprStmt(value) => Bound(value)
    case Return(value) => Bound(value)
    case Assert(test) => Bound(test)
    case Raise(value) => Bound(value)
    case If(test, yes, no) => Bound(test) + ReboundAll(yes) + ReboundAll(no)
    case While(test, body) => Bound(test) + ReboundAll(body)
    case For(target, iter, body) => {target} + Bound(iter) + ReboundAll(body)
    case Def(id, params, body) => {id} + Names(params) + ReboundAll(body)
    case Try(body, name, handler) => {name} + ReboundAll(body) + ReboundAll(handler)
    case Delete(id) => {id}
    case Nonlocal(ids) => ids
  }

  function ReboundAll(body: seq<Stmt>): set<string> {
    if body == [] then {} else Rebound(body[0]) + ReboundAll(body[1..])
  }

  /** Names an expression binds in the function around it (assignment expressions only). */
  function Walrus(e: Expr): set<string> {
    match e
    case Const(_) => {}
    case Name(_) => {}
    case TupleOf(elts) => WalrusAll(elts)
    case Neg(operand) => Walrus(operand)
    case Prim(_, args) => WalrusAll(args)
    case IfExp(test, yes, no) => Walrus(test) + Walrus(yes) + Walrus(no)
    case Call(fn, args) => Walrus(fn) + WalrusAll(args)
    case Lambda(_, _) => {}
    case Comprehension(elt, _, iter) => Walrus(elt) + Walrus(iter)
    case NamedExpr(id, value) => {id} + Walrus(value)
  }

  function WalrusAll(es: seq<Expr>): set<string> {
    if es == [] then {} else Walrus(es[0]) + WalrusAll(es[1..])
  }

  /** Names a statement binds in the function around it. */
  function Assigned(st: Stmt): set<string> {
    match st
    case Assign(id, value) => {id} + Walrus(value)
    case ExprStmt(value) => Walrus(value)
    case Return(value) => Walrus(value)
    case Assert(test) => Walrus(test)
    case Raise(value) => Walrus(value)
    case If(test, yes, no) => Walrus(test) + AssignedAll(yes) + AssignedAll(no)
    case While(test, body) => Walrus(test) + AssignedAll(body)
    case For(target, iter, body) => {target} + Walrus(iter) + AssignedAll(body)
    case Def(id, _, _) => {id}
    case Try(body, name, handler) => {name} + AssignedAll(body) + AssignedAll(handler)
    case Delete(id) => {id}
    case Nonlocal(_) => {}
  }

  function AssignedAll(body: seq<Stmt>): set<string> {
    if body == [] then {} else Assigned(body[0]) + AssignedAll(body[1..])
  }

  /** Names declared nonlocal in a function body, nested functions excluded. */
  function Declared(st: Stmt): set<string> {
    match st
    case Nonlocal(ids) => ids
    case If(_, yes, no) => DeclaredAll(yes) + DeclaredAll(no)
    case While(_, body) => DeclaredAll(body)
    case For(_, _, body) => DeclaredAll(body)
    case Try(body, _, handler) => DeclaredAll(body) + DeclaredAll(handler)
    case _ => {}
  }

  function DeclaredAll(body: seq<Stmt>): set<string> {
    if body == [] then {} else Declared(body[0]) + DeclaredAll(body[1..])
  }

  // ----- Values and stores -----

  datatype Code = Expression(e: Expr) | Body(stmts: seq<Stmt>)

  /** `chain` are the frames a function sees, innermost first. */
  datatype Val =
    | Atomic(atom: Atom)
    | Tup(elts: seq<Val>)
    | Closure(params: seq<string>, locals: set<string>, code: Code, chain: seq<nat>)

  datatype Frame = Frame(locals: set<string>, vals: map<string, Val>)

  type Store = seq<Frame>

  /** Anything but Ok ends the evaluation around it. */
  datatype Outcome<T> = Ok(value: T, store: Store) | Raised(exc: Val, store: Store) | OutOfFuel {
    predicate IsFailure() {
      !Ok?
    }

    function PropagateFailure<U>(): Outcome<U>
      requires IsFailure()
    {
      if Raised? then Raised(exc, store) else OutOfFuel
    }

    function Extract(): (T, Store)
      requires !IsFailure()
    {
      (value, store)
    }
  }

  datatype Flow = Next | Returned(value: Val)

  predicate FirstOrder(v: Val) {
    match v
    case Atomic(_) => true
    case Tup(elts) => forall i | 0 <= i < |elts| :: FirstOrder(elts[i])
    case Closure(_, _, _, _) => false
  }

  function Error(name: string): Val {
    Atomic(Str(name))
  }

  predicate Truthy(v: Val) {
    match v
    case Atomic(NoneAtom) => false
    case Atomic(Bool(b)) => b
    case Atomic(Int(n)) => n != 0
    case Atomic(Str(s)) => s != ""
    case Tup(elts) => elts != []
    case Closure(_, _, _, _) => true
  }

  /** Scoping is static: the innermost frame that has the name among its locals. */
  function FrameOf(x: string, chain: seq<nat>, s: Store): Option<nat> {
    if chain == [] then None
    else if chain[0] < |s| && x in s[chain[0]].locals then Some(chain[0])
    else FrameOf(x, chain[1..], s)
  }

  function Lookup(x: string, chain: seq<nat>, s: Store): Outcome<Val> {
    match FrameOf(x, chain, s)
    case None => Raised(Error("NameError"), s)
    case Some(f) =>
      if f < |s| && x in s[f].vals then Ok(s[f].vals[x], s) else Raised(Error("UnboundLocalError"), s)
  }

  function SetName(x: string, v: Val, chain: seq<nat>, s: Store): Outcome<Flow> {
    match FrameOf(x, chain, s)
    case Some(f) =>
      if f < |s| then Ok(Next, s[f := s[f].(vals := s[f].vals[x := v])]) else Raised(Error("NameError"), s)
    case None => Raised(Error("NameError"), s)
  }

  function Forget(x: string, chain: seq<nat>, s: Store): Outcome<Flow> {
    match FrameOf(x, chain, s)
    case Some(f) =>
      if f < |s| && x in s[f].vals then Ok(Next, s[f := s[f].(vals := s[f].vals - {x})])
      else Raised(Error("NameError"), s)
    case None => Raised(Error("NameError"), s)
  }

  function Bind(params: seq<string>, args: seq<Val>): map<string, Val>
    requires |params| == |args|
  {
    if params == [] then map[] else map[params[0] := args[0]] + Bind(params[1..], args[1..])
  }

  // ----- Evaluation -----

  /** The pure operations; a result that is not first-order counts as a type error. */
  type Prims = (string, seq<Val>) -> Val

  function ApplyPrim(prims: Prims, op: string, args: seq<Val>, s: Store): Outcome<Val> {
    if forall i | 0 <= i < |args| :: FirstOrder(args[i]) then
      var r := prims(op, args);
      if FirstOrder(r) then Ok(r, s) else Raised(Error("TypeError"), s)
    else Raised(Error("TypeError"), s)
  }

  function Negate(v: Val, s: Store): Outcome<Val> {
    if v.Atomic? && v.atom.Int? then Ok(Atomic(Int(-v.atom.n)), s) else Raised(Error("TypeError"), s)
  }

  /** Evaluation with fuel for calls and loop rounds. */
  function Eval(prims: Prims, fuel: nat, e: Expr, chain: seq<nat>, s: Store): Outcome<Val>
    decreases fuel, e, 1
  {
    match e
    case Const(atom) => Ok(Atomic(atom), s)
    case Name(id) => Lookup(id, chain, s)
    case TupleOf(elts) =>
      var (vs, s1) :- EvalAll(prims, fuel, elts, chain, s);
      Ok(Tup(vs), s1)
    case Neg(operand) =>
      var (v, s1) :- Eval(prims, fuel, operand, chain, s);
      Negate(v, s1)
    case Prim(op, args) =>
      var (vs, s1) :- EvalAll(prims, fuel, args, chain, s);
      ApplyPrim(prims, op, vs, s1)
    case IfExp(test, yes, no) =>
      var (v, s1) :- Eval(prims, fuel, test, chain, s);
      if Truthy(v) then Eval(prims, fuel, yes, chain, s1) else Eval(prims, fuel, no, chain, s1)
    case Call(fn, args) =>
      var (parts, s1) :- CallParts(prims, fuel, e, chain, s);
      if fuel == 0 then OutOfFuel else Invoke(prims, fuel - 1, parts.0, parts.1, s1)
    case Lambda(params, value) =>
      Ok(Closure(params, Names(params) + Walrus(value), Expression(value), chain), s)
    case Comprehension(elt, target, iter) =>
      var (v, s1) :- Eval(prims, fuel, iter, chain, s);
      CollectFrom(prims, fuel, e, v, chain, s1)
    case NamedExpr(id, value) =>
      var (v, s1) :- Eval(prims, fuel, value, chain, s);
      var (_, s2) :- SetName(id, v, chain, s1);
      Ok(v, s2)
  }

  function EvalAll(prims: Prims, fuel: nat, es: seq<Expr>, chain: seq<nat>, s: Store): Outcome<seq<Val>>
    decreases fuel, es, 0
  {
    if es == [] then Ok([], s)
    else
      var (v, s1) :- Eval(prims, fuel, es[0], chain, s);
      var (vs, s2) :- EvalAll(prims, fuel, es[1..], chain, s1);
      Ok([v] + vs, s2)
  }

  /** The function and the arguments of a call. */
  function CallParts(prims: Prims, fuel: nat, e: Expr, chain: seq<nat>, s: Store): Outcome<(Val, seq<Val>)>
    requires e.Call?
    decreases fuel, e, 0
  {
    var (f, s1) :- Eval(prims, fuel, e.fn, chain, s);
    var (vs, s2) :- EvalAll(prims, fuel, e.args, chain, s1);
    Ok((f, vs), s2)
  }

  /** A comprehension over the elements of `v`, in a frame of its own. */
  function CollectFrom(prims: Prims, fuel: nat, e: Expr, v: Val, chain: seq<nat>, s: Store): Outcome<Val>
    requires e.Comprehension?
    decreases fuel, e, 0
  {
    if v.Tup? then
      Collect(prims, fuel, e.elt, e.target, v.elts, [|s|] + chain, s + [Frame({e.target}, map[])], [])
    else Raised(Error("TypeError"), s)
  }

  /** The rounds of a comprehension. */
  function Collect(
      prims: Prims, fuel: nat, elt: Expr, target: string, vals: seq<Val>, chain: seq<nat>, s: Store,
      done: seq<Val>): Outcome<Val>
    decreases fuel, elt, |vals| + 2
  {
    if vals == [] then Ok(Tup(done), s)
    else
      var (v, s') :- CollectOne(prims, fuel, elt, target, vals[0], chain, s);
      Collect(prims, fuel, elt, target, vals[1..], chain, s', done + [v])
  }

  function CollectOne(
      prims: Prims, fuel: nat, elt: Expr, target: string, v: Val, chain: seq<nat>, s: Store): Outcome<Val>
    decreases fuel, elt, 2
  {
    var (_, s') :- SetName(target, v, chain, s);
    Eval(prims, fuel, elt, chain, s')
  }

  /** A call: a new frame on top of the frames the function was defined in. */
  function Invoke(prims: Prims, fuel: nat, f: Val, args: seq<Val>, s: Store): Outcome<Val>
    decreases fuel
  {
    if !f.Closure? || |f.params| != |args| then Raised(Error("TypeError"), s)
    else
      var s1 := s + [Frame(f.locals, Bind(f.params, args))];
      var chain := [|s|] + f.chain;
      match f.code
      case Expression(e) => Eval(prims, fuel, e, chain, s1)
      case Body(stmts) =>
        var (flow, s2) :- ExecAll(prims, fuel, stmts, chain, s1);
        Ok(if flow.Returned? then flow.value else Atomic(NoneAtom), s2)
  }

  function Exec(prims: Prims, fuel: nat, st: Stmt, chain: seq<nat>, s: Store): Outcome<Flow>
    decreases fuel, st, 1
  {
    match st
    case Assign(id, value) =>
      var (v, s1) :- Eval(prims, fuel, value, chain, s);
      SetName(id, v, chain, s1)
    case ExprStmt(value) =>
      var (_, s1) :- Eval(prims, fuel, value, chain, s);
      Ok(Next, s1)
    case Return(value) =>
      var (v, s1) :- Eval(prims, fuel, value, chain, s);
      Ok(Returned(v), s1)
    case Assert(test) =>
      var (v, s1) :- Eval(prims, fuel, test, chain, s);
      if Truthy(v) then Ok(Next, s1) else Raised(Error("AssertionError"), s1)
    case Raise(value) =>
      var (v, s1) :- Eval(prims, fuel, value, chain, s);
      Raised(v, s1)
    case If(test, yes, no) =>
      var (v, s1) :- Eval(prims, fuel, test, chain, s);
      if Truthy(v) then ExecAll(prims, fuel, yes, chain, s1) else ExecAll(prims, fuel, no, chain, s1)
    case While(_, _) =>
      var (turn, s1) :- WhileTurn(prims, fuel, st, chain, s);
      if turn.None? then Ok(Next, s1)
      else if turn.value.Returned? then Ok(turn.value, s1)
      else if fuel == 0 then OutOfFuel
      else Exec(prims, fuel - 1, st, chain, s1)
    case For(target, iter, body) =>
      var (v, s1) :- Eval(prims, fuel, iter, chain, s);
      if v.Tup? then Rounds(prims, fuel, target, v.elts, body, chain, s1) else Raised(Error("TypeError"), s1)
    case Def(id, params, body) =>
      SetName(id, Closure(params, Names(params) + (AssignedAll(body) - DeclaredAll(body)), Body(body), chain), chain, s)
    case Try(body, name, handler) =>
      var r := ExecAll(prims, fuel, body, chain, s);
      if !r.Raised? then r
      else
        var (_, s1) :- SetName(name, r.exc, chain, r.store);
        Unbind(name, chain, ExecAll(prims, fuel, handler, chain, s1))
    case Delete(id) => Forget(id, chain, s)
    case Nonlocal(_) => Ok(Next, s)
  }

  /** One test of a loop and, if it holds, one run of the body; None when it does not. */
  function WhileTurn(prims: Prims, fuel: nat, st: Stmt, chain: seq<nat>, s: Store): Outcome<Option<Flow>>
    requires st.While?
    decreases fuel, st, 0
  {
    var (v, s1) :- Eval(prims, fuel, st.test, chain, s);
    if !Truthy(v) then Ok(None, s1)
    else
      var (flow, s2) :- ExecAll(prims, fuel, st.body, chain, s1);
      Ok(Some(flow), s2)
  }

  /** The exception name is unbound after its handler, however the handler ends. */
  function Unbind(x: string, chain: seq<nat>, r: Outcome<Flow>): Outcome<Flow> {
    if r.OutOfFuel? then r
    else
      var forgotten := Forget(x, chain, r.store);
      if forgotten.Ok? then r.(store := forgotten.store) else r
  }

  function Rounds(
      prims: Prims, fuel: nat, target: string, vals: seq<Val>, body: seq<Stmt>, chain: seq<nat>,
      s: Store): Outcome<Flow>
    decreases fuel, body, |vals| + 2
  {
    if vals == [] then Ok(Next, s)
    else
      var (flow, s1) :- OneRound(prims, fuel, target, vals[0], body, chain, s);
      if flow.Returned? then Ok(flow, s1) else Rounds(prims, fuel, target, vals[1..], body, chain, s1)
  }

  function OneRound(prims: Prims, fuel: nat, target: string, v: Val, body: seq<Stmt>, chain: seq<nat>, s: Store)
    : Outcome<Flow>
    decreases fuel, body, 1
  {
    var (_, s1) :- SetName(target, v, chain, s);
    ExecAll(prims, fuel, body, chain, s1)
  }

  function ExecAll(prims: Prims, fuel: nat, body: seq<Stmt>, chain: seq<nat>, s: Store): Outcome<Flow>
    decreases fuel, body, 0
  {
    if body == [] then Ok(Next, s)
    else
      var (flow, s1) :- Exec(prims, fuel, body[0], chain, s);
      if flow.Returned? then Ok(flow, s1) else ExecAll(prims, fuel, body[1..], chain, s1)
  }

  // ----- Substitution -----

  /** The literal of each parameter. */
  type Row = map<string, Expr>

  function Subst(row: Row, e: Expr): Expr {
    match e
    case Const(_) => e
    case Name(id) => if id in row then row[id] else e
    case TupleOf(elts) => TupleOf(SubstAll(row, elts))
    case Neg(operand) => Neg(Subst(row, operand))
    case Prim(op, args) => Prim(op, SubstAll(row, args))
    case IfExp(test, yes, no) => IfExp(Subst(row, test), Subst(row, yes), Subst(row, no))
    case Call(fn, args) => Call(Subst(row, fn), SubstAll(row, args))
    case Lambda(params, value) => Lambda(params, Subst(row, value))
    case Comprehension(elt, target, iter) => Comprehension(Subst(row, elt), target, Subst(row, iter))
    case NamedExpr(id, value) => NamedExpr(id, Subst(row, value))
  }

  function SubstAll(row: Row, es: seq<Expr>): seq<Expr> {
    if es == [] then [] else [Subst(row, es[0])] + SubstAll(row, es[1..])
  }

  function SubstStmt(row: Row, st: Stmt): Stmt {
    match st
    case Assign(id, value) => Assign(id, Subst(row, value))
    case ExprStmt(value) => ExprStmt(Subst(row, value))
    case Return(value) => Return(Subst(row, value))
    case Assert(test) => Assert(Subst(row, test))
    case Raise(value) => Raise(Subst(row, value))
    case If(test, yes, no) => If(Subst(row, test), SubstBody(row, yes), SubstBody(row, no))
    case While(test, body) => While(Subst(row, test), SubstBody(row, body))
    case For(target, iter, body) => For(target, Subst(row, iter), SubstBody(row, body))
    case Def(id, params, body) => Def(id, params, SubstBody(row, body))
    case Try(body, name, handler) => Try(SubstBody(row, body), name, SubstBody(row, handler))
    case Delete(_) => st
    case Nonlocal(_) => st
  }

  function SubstBody(row: Row, body: seq<Stmt>): seq<Stmt> {
    if body == [] then [] else [SubstStmt(row, body[0])] + SubstBody(row, body[1..])
  }

  function SubstCode(row: Row, code: Code): Code {
    match code
    case Expression(e) => Expression(Subst(row, e))
    case Body(stmts) => Body(SubstBody(row, stmts))
  }

  /** Expressions that can be evaluated without running anything. */
  predicate IsLiteral(e: Expr) {
    match e
    case Const(_) => true
    case TupleOf(elts) => AreLiterals(elts)
    case Neg(operand) => operand.Const? && operand.atom.Int?
    case _ => false
  }

  predicate AreLiterals(es: seq<Expr>) {
    es == [] || (IsLiteral(es[0]) && AreLiterals(es[1..]))
  }

  function LiteralValue(e: Expr): Val
    requires IsLiteral(e)
  {
    match e
    case Const(atom) => Atomic(atom)
    case TupleOf(elts) => Tup(LiteralValues(elts))
    case Neg(operand) => Atomic(Int(-operand.atom.n))
  }

  function LiteralValues(es: seq<Expr>): (r: seq<Val>)
    requires AreLiterals(es)
    ensures |r| == |es|
  {
    if es == [] then [] else [LiteralValue(es[0])] + LiteralValues(es[1..])
  }

  /** A literal is closed: it evaluates to its value anywhere and touches nothing. */
  lemma {:induction false} LiteralIsClosed(prims: Prims, fuel: nat, e: Expr, chain: seq<nat>, s: Store)
    requires IsLiteral(e)
    ensures Eval(prims, fuel, e, chain, s) == Ok(LiteralValue(e), s)
    decreases e, 0
  {
    match e
    case Const(_) =>
    case TupleOf(elts) => LiteralsAreClosed(prims, fuel, elts, chain, s);
    case Neg(operand) =>
  }

  lemma {:induction false} LiteralsAreClosed(prims: Prims, fuel: nat, es: seq<Expr>, chain: seq<nat>, s: Store)
    requires AreLiterals(es)
    ensures EvalAll(prims, fuel, es, chain, s) == Ok(LiteralValues(es), s)
    decreases es, 0
  {
    if es != [] {
      LiteralIsClosed(prims, fuel, es[0], chain, s);
      LiteralsAreClosed(prims, fuel, es[1..], chain, s);
    }
  }

  /** A first-order value as it is written. */
  function Written(v: Val): Expr
    requires FirstOrder(v)
    decreases v, 0
  {
    match v
    case Atomic(Int(n)) => if n < 0 then Neg(Const(Int(-n))) else Const(Int(n))
    case Atomic(atom) => Const(atom)
    case Tup(elts) => TupleOf(WrittenAll(elts))
  }

  function WrittenAll(vs: seq<Val>): seq<Expr>
    requires forall i | 0 <= i < |vs| :: FirstOrder(vs[i])
    decreases vs, 0
  {
    if vs == [] then [] else [Written(vs[0])] + WrittenAll(vs[1..])
  }

  /** Every first-order value has a literal. */
  lemma {:induction false} WrittenIsLiteral(v: Val)
    requires FirstOrder(v)
    ensures IsLiteral(Written(v)) && LiteralValue(Written(v)) == v
    decreases v, 0
  {
    if v.Tup? { WrittenAreLiterals(v.elts); }
  }

  lemma {:induction false} WrittenAreLiterals(vs: seq<Val>)
    requires forall i | 0 <= i < |vs| :: FirstOrder(vs[i])
    ensures AreLiterals(WrittenAll(vs)) && LiteralValues(WrittenAll(vs)) == vs
    decreases vs, 0
  {
    if vs != [] {
      WrittenIsLiteral(vs[0]);
      WrittenAreLiterals(vs[1..]);
      assert WrittenAll(vs)[1..] == WrittenAll(vs[1..]);
    }
  }

  /** Substitution adds no names, so the local names of every function stay the same. */
  lemma {:induction false} SubstKeepsWalrus(row: Row, e: Expr)
    requires forall p <- row :: IsLiteral(row[p])
    ensures Walrus(Subst(row, e)) == Walrus(e)
    decreases e, 0
  {
    match e
    case Const(_) =>
    case Name(id) => if id in row { LiteralHasNoWalrus(row[id]); }
    case TupleOf(elts) => SubstAllKeepsWalrus(row, elts);
    case Neg(operand) => SubstKeepsWalrus(row, operand);
    case Prim(_, args) => SubstAllKeepsWalrus(row, args);
    case IfExp(test, yes, no) =>
      SubstKeepsWalrus(row, test); SubstKeepsWalrus(row, yes); SubstKeepsWalrus(row, no);
    case Call(fn, args) => SubstKeepsWalrus(row, fn); SubstAllKeepsWalrus(row, args);
    case Lambda(_, _) =>
    case Comprehension(elt, _, iter) => SubstKeepsWalrus(row, elt); SubstKeepsWalrus(row, iter);
    case NamedExpr(_, value) => SubstKeepsWalrus(row, value);
  }

  lemma {:induction false} SubstAllKeepsWalrus(row: Row, es: seq<Expr>)
    requires forall p <- row :: IsLiteral(row[p])
    ensures WalrusAll(SubstAll(row, es)) == WalrusAll(es)
    decreases es, 0
  {
    if es != [] {
      SubstKeepsWalrus(row, es[0]);
      SubstAllKeepsWalrus(row, es[1..]);
      assert SubstAll(row, es)[1..] == SubstAll(row, es[1..]);
    }
  }

  lemma {:induction false} LiteralHasNoWalrus(e: Expr)
    requires IsLiteral(e)
    ensures Walrus(e) == {}
    decreases e, 0
  {
    if e.TupleOf? { LiteralsHaveNoWalrus(e.elts); }
  }

  lemma {:induction false} LiteralsHaveNoWalrus(es: seq<Expr>)
    requires AreLiterals(es)
    ensures WalrusAll(es) == {}
    decreases es, 0
  {
    if es != [] {
      LiteralHasNoWalrus(es[0]);
      LiteralsHaveNoWalrus(es[1..]);
    }
  }

  lemma {:induction false} SubstKeepsLocals(row: Row, st: Stmt)
    requires forall p <- row :: IsLiteral(row[p])
    ensures Assigned(SubstStmt(row, st)) == Assigned(st) && Declared(SubstStmt(row, st)) == Declared(st)
    decreases st, 0
  {
    match st
    case Assign(_, value) => SubstKeepsWalrus(row, value);
    case ExprStmt(value) => SubstKeepsWalrus(row, value);
    case Return(value) => SubstKeepsWalrus(row, value);
    case Assert(test) => SubstKeepsWalrus(row, test);
    case Raise(value) => SubstKeepsWalrus(row, value);
    case If(test, yes, no) =>
      SubstKeepsWalrus(row, test); SubstBodyKeepsLocals(row, yes); SubstBodyKeepsLocals(row, no);
    case While(test, body) => SubstKeepsWalrus(row, test); SubstBodyKeepsLocals(row, body);
    case For(_, iter, body) => SubstKeepsWalrus(row, iter); SubstBodyKeepsLocals(row, body);
    case Def(_, _, _) =>
    case Try(body, _, handler) => SubstBodyKeepsLocals(row, body); SubstBodyKeepsLocals(row, handler);
    case Delete(_) =>
    case Nonlocal(_) =>
  }

  lemma {:induction false} SubstBodyKeepsLocals(row: Row, body: seq<Stmt>)
    requires forall p <- row :: IsLiteral(row[p])
    ensures AssignedAll(SubstBody(row, body)) == AssignedAll(body)
    ensures DeclaredAll(SubstBody(row, body)) == DeclaredAll(body)
    decreases body, 0
  {
    if body != [] {
      SubstKeepsLocals(row, body[0]);
      SubstBodyKeepsLocals(row, body[1..]);
      assert SubstBody(row, body)[1..] == SubstBody(row, body[1..]);
    }
  }

  /** Local names are among the names the rebinding check looks at. */
  lemma {:induction false} WalrusIsBound(e: Expr)
    ensures Walrus(e) <= Bound(e)
    decreases e, 0
  {
    match e
    case Const(_) =>
    case Name(_) =>
    case TupleOf(elts) => WalrusAllIsBound(elts);
    case Neg(operand) => WalrusIsBound(operand);
    case Prim(_, args) => WalrusAllIsBound(args);
    case IfExp(test, yes, no) => WalrusIsBound(test); WalrusIsBound(yes); WalrusIsBound(no);
    case Call(fn, args) => WalrusIsBound(fn); WalrusAllIsBound(args);
    case Lambda(_, _) =>
    case Comprehension(elt, _, iter) => WalrusIsBound(elt); WalrusIsBound(iter);
    case NamedExpr(_, value) => WalrusIsBound(value);
  }

  lemma {:induction false} WalrusAllIsBound(es: seq<Expr>)
    ensures WalrusAll(es) <= BoundAll(es)
    decreases es, 0
  {
    if es != [] { WalrusIsBound(es[0]); WalrusAllIsBound(es[1..]); }
  }

  lemma {:induction false} AssignedIsRebound(st: Stmt)
    ensures Assigned(st) <= Rebound(st)
    decreases st, 0
  {
    match st
    case Assign(_, value) => WalrusIsBound(value);
    case ExprStmt(value) => WalrusIsBound(value);
    case Return(value) => WalrusIsBound(value);
    case Assert(test) => WalrusIsBound(test);
    case Raise(value) => WalrusIsBound(value);
    case If(test, yes, no) => WalrusIsBound(test); AssignedAllIsRebound(yes); AssignedAllIsRebound(no);
    case While(test, body) => WalrusIsBound(test); AssignedAllIsRebound(body);
    case For(_, iter, body) => WalrusIsBound(iter); AssignedAllIsRebound(body);
    case Def(_, _, _) =>
    case Try(body, _, handler) => AssignedAllIsRebound(body); AssignedAllIsRebound(handler);
    case Delete(_) =>
    case Nonlocal(_) =>
  }

  lemma {:induction false} AssignedAllIsRebound(body: seq<Stmt>)
    ensures AssignedAll(body) <= ReboundAll(body)
    decreases body, 0
  {
    if body != [] { AssignedIsRebound(body[0]); AssignedAllIsRebound(body[1..]); }
  }

  // ----- The substituted run, seen from the original one -----

  /** The frame of the test function and the row its parameters are bound to. */
  datatype Setting = Setting(test: nat, row: Row) {
    /** Code defined inside the test is substituted, all other code is left alone. */
    function In(chain: seq<nat>, e: Expr): Expr {
      if test in chain then Subst(row, e) else e
    }

    function InAll(chain: seq<nat>, es: seq<Expr>): seq<Expr> {
      if test in chain then SubstAll(row, es) else es
    }

    function InStmt(chain: seq<nat>, st: Stmt): Stmt {
      if test in chain then SubstStmt(row, st) else st
    }

    function InBody(chain: seq<nat>, body: seq<Stmt>): seq<Stmt> {
      if test in chain then SubstBody(row, body) else body
    }

    /** The value the substituted run holds where the original holds `v`. */
    function Image(v: Val): Val
      decreases v, 0
    {
      match v
      case Atomic(_) => v
      case Tup(elts) => Tup(Images(elts))
      case Closure(params, locals, code, chain) =>
        if test in chain then Closure(params, locals, SubstCode(row, code), chain) else v
    }

    function Images(vs: seq<Val>): (r: seq<Val>)
      ensures |r| == |vs| && forall i | 0 <= i < |vs| :: r[i] == Image(vs[i])
      decreases vs, 0
    {
      if vs == [] then [] else [Image(vs[0])] + Images(vs[1..])
    }

    /** The test frame loses the parameters. */
    function ImageOfMap(m: map<string, Val>): map<string, Val> {
      map x | x in m :: Image(m[x])
    }

    function ImageOfFrame(i: nat, f: Frame): Frame {
      var gone := if i == test then row.Keys else {};
      Frame(f.locals - gone, map x | x in f.vals && x !in gone :: Image(f.vals[x]))
    }

    function ImageOfStore(s: Store): (r: Store)
      ensures |r| == |s|
    {
      seq(|s|, i requires 0 <= i < |s| => ImageOfFrame(i, s[i]))
    }

    function ImageOfFlow(f: Flow): Flow {
      if f.Returned? then Returned(Image(f.value)) else f
    }

    function ImageOfVal(r: Outcome<Val>): Outcome<Val> {
      match r
      case Ok(v, s) => Ok(Image(v), ImageOfStore(s))
      case Raised(x, s) => Raised(Image(x), ImageOfStore(s))
      case OutOfFuel => OutOfFuel
    }

    function ImageOfVals(r: Outcome<seq<Val>>): Outcome<seq<Val>> {
      match r
      case Ok(vs, s) => Ok(Images(vs), ImageOfStore(s))
      case Raised(x, s) => Raised(Image(x), ImageOfStore(s))
      case OutOfFuel => OutOfFuel
    }

    function ImageOfRun(r: Outcome<Flow>): Outcome<Flow> {
      match r
      case Ok(f, s) => Ok(ImageOfFlow(f), ImageOfStore(s))
      case Raised(x, s) => Raised(Image(x), ImageOfStore(s))
      case OutOfFuel => OutOfFuel
    }

    // ----- What every original run keeps -----

    /** The frames exist, and between a scope inside the test and the test no frame hides a parameter. */
    ghost predicate GoodChain(chain: seq<nat>, s: Store) {
      chain == [] ||
      (chain[0] < |s| && GoodChain(chain[1..], s)
       && (chain[0] != test && test in chain[1..] ==> s[chain[0]].locals !! row.Keys))
    }

    ghost predicate GoodCode(code: Code) {
      (if code.Expression? then Bound(code.e) else ReboundAll(code.stmts)) !! row.Keys
    }

    ghost predicate GoodVal(v: Val, s: Store)
      decreases v
    {
      match v
      case Atomic(_) => true
      case Tup(elts) => forall i | 0 <= i < |elts| :: GoodVal(elts[i], s)
      case Closure(_, locals, code, chain) =>
        GoodChain(chain, s) && (test in chain ==> locals !! row.Keys && GoodCode(code))
    }

    ghost predicate GoodVals(vs: seq<Val>, s: Store) {
      forall i | 0 <= i < |vs| :: GoodVal(vs[i], s)
    }

    /** The parameters are bound to their literals in the test frame, and all values are good. */
    ghost predicate GoodStore(s: Store) {
      && test < |s| && row.Keys <= s[test].locals
      && (forall p <- row :: IsLiteral(row[p]) && p in s[test].vals && s[test].vals[p] == LiteralValue(row[p]))
      && (forall i, x | 0 <= i < |s| && x in s[i].vals :: GoodVal(s[i].vals[x], s))
    }

    /** Frames are only added, and their local names never change. */
    ghost predicate Grows(s: Store, s': Store) {
      |s| <= |s'| && forall i | 0 <= i < |s| :: s[i].locals == s'[i].locals
    }

    ghost predicate GoodAfter(s: Store, s': Store) {
      Grows(s, s') && GoodStore(s')
    }

    ghost predicate GoodOutcome(s: Store, r: Outcome<Val>) {
      match r
      case Ok(v, s') => GoodAfter(s, s') && GoodVal(v, s')
      case Raised(x, s') => GoodAfter(s, s') && GoodVal(x, s')
      case OutOfFuel => true
    }

    ghost predicate GoodOutcomes(s: Store, r: Outcome<seq<Val>>) {
      match r
      case Ok(vs, s') => GoodAfter(s, s') && GoodVals(vs, s')
      case Raised(x, s') => GoodAfter(s, s') && GoodVal(x, s')
      case OutOfFuel => true
    }

    ghost predicate GoodRun(s: Store, r: Outcome<Flow>) {
      match r
      case Ok(f, s') => GoodAfter(s, s') && (f.Returned? ==> GoodVal(f.value, s'))
      case Raised(x, s') => GoodAfter(s, s') && GoodVal(x, s')
      case OutOfFuel => true
    }

    lemma GoodOutcomeLater(s: Store, s': Store, r: Outcome<Val>)
      requires Grows(s, s') && GoodOutcome(s', r)
      ensures GoodOutcome(s, r)
    {
    }

    lemma GoodRunLater(s: Store, s': Store, r: Outcome<Flow>)
      requires Grows(s, s') && GoodRun(s', r)
      ensures GoodRun(s, r)
    {
    }

    lemma {:induction false} ChainStaysGood(chain: seq<nat>, s: Store, s': Store)
      requires GoodChain(chain, s) && Grows(s, s')
      ensures GoodChain(chain, s')
    {
      if chain != [] { ChainStaysGood(chain[1..], s, s'); }
    }

    lemma {:induction false} ValStaysGood(v: Val, s: Store, s': Store)
      requires GoodVal(v, s) && Grows(s, s')
      ensures GoodVal(v, s')
      decreases v
    {
      match v
      case Atomic(_) =>
      case Tup(elts) =>
        forall i | 0 <= i < |elts| ensures GoodVal(elts[i], s') { ValStaysGood(elts[i], s, s'); }
      case Closure(_, _, _, chain) => ChainStaysGood(chain, s, s');
    }

    lemma ValsStayGood(vs: seq<Val>, s: Store, s': Store)
      requires GoodVals(vs, s) && Grows(s, s')
      ensures GoodVals(vs, s')
    {
      forall i | 0 <= i < |vs| ensures GoodVal(vs[i], s') { ValStaysGood(vs[i], s, s'); }
    }

    lemma {:induction false} LiteralIsGood(e: Expr, s: Store)
      requires IsLiteral(e)
      ensures GoodVal(LiteralValue(e), s) && Image(LiteralValue(e)) == LiteralValue(e)
      decreases e, 0
    {
      if e.TupleOf? { LiteralsAreGood(e.elts, s); }
    }

    lemma {:induction false} LiteralsAreGood(es: seq<Expr>, s: Store)
      requires AreLiterals(es)
      ensures GoodVals(LiteralValues(es), s) && Images(LiteralValues(es)) == LiteralValues(es)
      decreases es, 0
    {
      if es != [] {
        LiteralIsGood(es[0], s);
        LiteralsAreGood(es[1..], s);
      }
    }

    lemma {:induction false} FirstOrderIsImage(v: Val)
      ensures FirstOrder(Image(v)) == FirstOrder(v)
      ensures FirstOrder(v) ==> Image(v) == v && forall s: Store :: GoodVal(v, s)
      decreases v
    {
      if v.Tup? {
        forall i | 0 <= i < |v.elts|
          ensures FirstOrder(Image(v.elts[i])) == FirstOrder(v.elts[i])
          ensures FirstOrder(v.elts[i]) ==> Image(v.elts[i]) == v.elts[i] && forall s: Store :: GoodVal(v.elts[i], s)
        {
          FirstOrderIsImage(v.elts[i]);
        }
        if FirstOrder(v) { assert Images(v.elts) == v.elts; }
        else {
          var i :| 0 <= i < |v.elts| && !FirstOrder(v.elts[i]);
          assert !FirstOrder(Images(v.elts)[i]);
        }
      }
    }

    // ----- Name access -----

    /** A name that is no parameter is found in the same frame; a parameter is found in the test frame. */
    lemma {:induction false} FrameAgrees(x: string, chain: seq<nat>, s: Store)
      requires GoodStore(s) && GoodChain(chain, s)
      ensures FrameOf(x, chain, s).Some? ==> FrameOf(x, chain, s).value < |s| && FrameOf(x, chain, s).value in chain
      ensures x !in row || test !in chain ==> FrameOf(x, chain, ImageOfStore(s)) == FrameOf(x, chain, s)
      ensures x in row && test in chain ==> FrameOf(x, chain, s) == Some(test)
    {
      if chain != [] {
        FrameAgrees(x, chain[1..], s);
        assert ImageOfStore(s)[chain[0]].locals == s[chain[0]].locals - (if chain[0] == test then row.Keys else {});
      }
    }

    lemma LookupCommutes(prims: Prims, fuel: nat, x: string, chain: seq<nat>, s: Store)
      requires GoodStore(s) && GoodChain(chain, s)
      ensures GoodOutcome(s, Lookup(x, chain, s))
      ensures Eval(prims, fuel, In(chain, Name(x)), chain, ImageOfStore(s)) == ImageOfVal(Lookup(x, chain, s))
    {
      FrameAgrees(x, chain, s);
      if x in row && test in chain {
        LiteralIsClosed(prims, fuel, row[x], chain, ImageOfStore(s));
        LiteralIsGood(row[x], s);
      }
    }

    lemma FrameUpdateCommutes(i: nat, f: Frame, x: string, v: Val)
      requires i == test ==> x !in row
      ensures ImageOfFrame(i, f.(vals := f.vals[x := v]))
           == ImageOfFrame(i, f).(vals := ImageOfFrame(i, f).vals[x := Image(v)])
      ensures ImageOfFrame(i, f.(vals := f.vals - {x}))
           == ImageOfFrame(i, f).(vals := ImageOfFrame(i, f).vals - {x})
    {
      var g := f.(vals := f.vals[x := v]);
      assert ImageOfFrame(i, g).vals == ImageOfFrame(i, f).vals[x := Image(v)];
      var h := f.(vals := f.vals - {x});
      assert ImageOfFrame(i, h).vals == ImageOfFrame(i, f).vals - {x};
    }

    lemma SetNameCommutes(x: string, v: Val, chain: seq<nat>, s: Store)
      requires GoodStore(s) && GoodChain(chain, s) && GoodVal(v, s) && (test in chain ==> x !in row)
      ensures GoodRun(s, SetName(x, v, chain, s))
      ensures SetName(x, Image(v), chain, ImageOfStore(s)) == ImageOfRun(SetName(x, v, chain, s))
    {
      FrameAgrees(x, chain, s);
      var f := FrameOf(x, chain, s);
      if f.Some? {
        var s' := s[f.value := s[f.value].(vals := s[f.value].vals[x := v])];
        forall i, y | 0 <= i < |s'| && y in s'[i].vals ensures GoodVal(s'[i].vals[y], s') {
          ValStaysGood(s'[i].vals[y], s, s');
        }
        FrameUpdateCommutes(f.value, s[f.value], x, v);
        assert ImageOfStore(s)[f.value := ImageOfFrame(f.value, s'[f.value])] == ImageOfStore(s');
      }
    }

    lemma ForgetCommutes(x: string, chain: seq<nat>, s: Store)
      requires GoodStore(s) && GoodChain(chain, s) && (test in chain ==> x !in row)
      ensures GoodRun(s, Forget(x, chain, s))
      ensures Forget(x, chain, ImageOfStore(s)) == ImageOfRun(Forget(x, chain, s))
    {
      FrameAgrees(x, chain, s);
      var f := FrameOf(x, chain, s);
      if f.Some? && x in s[f.value].vals {
        var s' := s[f.value := s[f.value].(vals := s[f.value].vals - {x})];
        forall i, y | 0 <= i < |s'| && y in s'[i].vals ensures GoodVal(s'[i].vals[y], s') {
          ValStaysGood(s'[i].vals[y], s, s');
        }
        FrameUpdateCommutes(f.value, s[f.value], x, Atomic(NoneAtom));
        assert ImageOfStore(s)[f.value := ImageOfFrame(f.value, s'[f.value])] == ImageOfStore(s');
      }
    }

    // ----- New frames and pure operations -----

    lemma FrameIsPushed(chain: seq<nat>, s: Store, locals: set<string>, vals: map<string, Val>)
      requires GoodStore(s) && GoodChain(chain, s) && (test in chain ==> locals !! row.Keys)
      requires forall x <- vals :: GoodVal(vals[x], s)
      ensures var s' := s + [Frame(locals, vals)];
        && GoodAfter(s, s') && GoodChain([|s|] + chain, s') && (test in [|s|] + chain <==> test in chain)
        && ImageOfStore(s') == ImageOfStore(s) + [Frame(locals, ImageOfMap(vals))]
    {
      var s' := s + [Frame(locals, vals)];
      forall i, y | 0 <= i < |s'| && y in s'[i].vals ensures GoodVal(s'[i].vals[y], s') {
        ValStaysGood(s'[i].vals[y], s, s');
      }
      ChainStaysGood(chain, s, s');
      assert ([|s|] + chain)[1..] == chain;
      assert ImageOfFrame(|s|, Frame(locals, vals)).vals == ImageOfMap(vals);
      assert ImageOfFrame(|s|, Frame(locals, vals)).locals == locals;
    }

    lemma {:induction false} BindCommutes(params: seq<string>, args: seq<Val>)
      requires |params| == |args|
      ensures Bind(params, Images(args)) == ImageOfMap(Bind(params, args))
      decreases |params|
    {
      if params != [] {
        BindCommutes(params[1..], args[1..]);
        assert Images(args)[1..] == Images(args[1..]);
        ImageOfMapAdd(params[0], args[0], Bind(params[1..], args[1..]));
      }
    }

    lemma ImageOfMapAdd(x: string, v: Val, m: map<string, Val>)
      ensures ImageOfMap(map[x := v] + m) == map[x := Image(v)] + ImageOfMap(m)
    {
    }

    lemma {:induction false} BindTakesArgs(params: seq<string>, args: seq<Val>, s: Store)
      requires |params| == |args| && GoodVals(args, s)
      ensures forall x <- Bind(params, args) :: GoodVal(Bind(params, args)[x], s)
      decreases |params|
    {
      if params != [] { BindTakesArgs(params[1..], args[1..], s); }
    }

    lemma PrimCommutes(prims: Prims, op: string, args: seq<Val>, s: Store)
      requires GoodStore(s)
      ensures GoodOutcome(s, ApplyPrim(prims, op, args, s))
      ensures ApplyPrim(prims, op, Images(args), ImageOfStore(s)) == ImageOfVal(ApplyPrim(prims, op, args, s))
    {
      forall i | 0 <= i < |args|
        ensures FirstOrder(Images(args)[i]) == FirstOrder(args[i])
        ensures FirstOrder(args[i]) ==> Images(args)[i] == args[i]
      {
        FirstOrderIsImage(args[i]);
      }
      if forall i | 0 <= i < |args| :: FirstOrder(args[i]) {
        assert Images(args) == args;
        FirstOrderIsImage(prims(op, args));
      } else {
        var i :| 0 <= i < |args| && !FirstOrder(args[i]);
        assert !FirstOrder(Images(args)[i]);
      }
    }

    lemma ValsAppend(vs: seq<Val>, v: Val)
      ensures Images(vs + [v]) == Images(vs) + [Image(v)]
    {
    }

    // ----- The theorem, construct by construct -----

    lemma {:induction false} EvalCommutes(prims: Prims, fuel: nat, e: Expr, chain: seq<nat>, s: Store)
      requires GoodStore(s) && GoodChain(chain, s) && (test in chain ==> Bound(e) !! row.Keys)
      ensures GoodOutcome(s, Eval(prims, fuel, e, chain, s))
      ensures Eval(prims, fuel, In(chain, e), chain, ImageOfStore(s)) == ImageOfVal(Eval(prims, fuel, e, chain, s))
      decreases fuel, e, 2
    {
      match e
      case Const(_) =>
      case Name(id) => LookupCommutes(prims, fuel, id, chain, s);
      case TupleOf(_) => TupleCommutes(prims, fuel, e, chain, s);
      case Neg(_) => NegCommutes(prims, fuel, e, chain, s);
      case Prim(_, _) => PrimExprCommutes(prims, fuel, e, chain, s);
      case IfExp(_, _, _) => IfExpCommutes(prims, fuel, e, chain, s);
      case Call(_, _) => CallCommutes(prims, fuel, e, chain, s);
      case Lambda(_, _) => LambdaCommutes(prims, fuel, e, chain, s);
      case Comprehension(_, _, _) => ComprehensionCommutes(prims, fuel, e, chain, s);
      case NamedExpr(_, _) => NamedExprCommutes(prims, fuel, e, chain, s);
    }

    lemma {:induction false} TupleCommutes(prims: Prims, fuel: nat, e: Expr, chain: seq<nat>, s: Store)
      requires GoodStore(s) && GoodChain(chain, s) && (test in chain ==> Bound(e) !! row.Keys) && e.TupleOf?
      ensures GoodOutcome(s, Eval(prims, fuel, e, chain, s))
      ensures Eval(prims, fuel, In(chain, e), chain, ImageOfStore(s)) == ImageOfVal(Eval(prims, fuel, e, chain, s))
      decreases fuel, e, 0
    {
      EvalAllCommutes(prims, fuel, e.elts, chain, s);
    }

    lemma {:induction false} NegCommutes(prims: Prims, fuel: nat, e: Expr, chain: seq<nat>, s: Store)
      requires GoodStore(s) && GoodChain(chain, s) && (test in chain ==> Bound(e) !! row.Keys) && e.Neg?
      ensures GoodOutcome(s, Eval(prims, fuel, e, chain, s))
      ensures Eval(prims, fuel, In(chain, e), chain, ImageOfStore(s)) == ImageOfVal(Eval(prims, fuel, e, chain, s))
      decreases fuel, e, 0
    {
      EvalCommutes(prims, fuel, e.operand, chain, s);
    }

    lemma {:induction false} PrimExprCommutes(prims: Prims, fuel: nat, e: Expr, chain: seq<nat>, s: Store)
      requires GoodStore(s) && GoodChain(chain, s) && (test in chain ==> Bound(e) !! row.Keys) && e.Prim?
      ensures GoodOutcome(s, Eval(prims, fuel, e, chain, s))
      ensures Eval(prims, fuel, In(chain, e), chain, ImageOfStore(s)) == ImageOfVal(Eval(prims, fuel, e, chain, s))
      decreases fuel, e, 0
    {
      EvalAllCommutes(prims, fuel, e.args, chain, s);
      var r := EvalAll(prims, fuel, e.args, chain, s);
      if r.Ok? { PrimCommutes(prims, e.op, r.value, r.store); }
    }

    lemma {:induction false} IfExpCommutes(prims: Prims, fuel: nat, e: Expr, chain: seq<nat>, s: Store)
      requires GoodStore(s) && GoodChain(chain, s) && (test in chain ==> Bound(e) !! row.Keys) && e.IfExp?
      ensures GoodOutcome(s, Eval(prims, fuel, e, chain, s))
      ensures Eval(prims, fuel, In(chain, e), chain, ImageOfStore(s)) == ImageOfVal(Eval(prims, fuel, e, chain, s))
      decreases fuel, e, 0
    {
      EvalCommutes(prims, fuel, e.test, chain, s);
      var r := Eval(prims, fuel, e.test, chain, s);
      if r.Ok? {
        ChainStaysGood(chain, s, r.store);
        EvalCommutes(prims, fuel, if Truthy(r.value) then e.yes else e.no, chain, r.store);
      }
    }

    lemma LambdaCommutes(prims: Prims, fuel: nat, e: Expr, chain: seq<nat>, s: Store)
      requires GoodStore(s) && GoodChain(chain, s) && (test in chain ==> Bound(e) !! row.Keys) && e.Lambda?
      ensures GoodOutcome(s, Eval(prims, fuel, e, chain, s))
      ensures Eval(prims, fuel, In(chain, e), chain, ImageOfStore(s)) == ImageOfVal(Eval(prims, fuel, e, chain, s))
    {
      WalrusIsBound(e.value);
      SubstKeepsWalrus(row, e.value);
    }

    lemma {:induction false} NamedExprCommutes(prims: Prims, fuel: nat, e: Expr, chain: seq<nat>, s: Store)
      requires GoodStore(s) && GoodChain(chain, s) && (test in chain ==> Bound(e) !! row.Keys) && e.NamedExpr?
      ensures GoodOutcome(s, Eval(prims, fuel, e, chain, s))
      ensures Eval(prims, fuel, In(chain, e), chain, ImageOfStore(s)) == ImageOfVal(Eval(prims, fuel, e, chain, s))
      decreases fuel, e, 0
    {
      EvalCommutes(prims, fuel, e.value, chain, s);
      var r := Eval(prims, fuel, e.value, chain, s);
      if r.Ok? {
        ChainStaysGood(chain, s, r.store);
        SetNameCommutes(e.id, r.value, chain, r.store);
        var a := SetName(e.id, r.value, chain, r.store);
        if a.Ok? { ValStaysGood(r.value, r.store, a.store); }
      }
    }

    function ImageOfParts(r: Outcome<(Val, seq<Val>)>): Outcome<(Val, seq<Val>)> {
      match r
      case Ok(parts, s) => Ok((Image(parts.0), Images(parts.1)), ImageOfStore(s))
      case Raised(x, s) => Raised(Image(x), ImageOfStore(s))
      case OutOfFuel => OutOfFuel
    }

    ghost predicate GoodParts(s: Store, r: Outcome<(Val, seq<Val>)>) {
      match r
      case Ok(parts, s') => GoodAfter(s, s') && GoodVal(parts.0, s') && GoodVals(parts.1, s')
      case Raised(x, s') => GoodAfter(s, s') && GoodVal(x, s')
      case OutOfFuel => true
    }

    lemma {:induction false} CallPartsCommute(prims: Prims, fuel: nat, e: Expr, chain: seq<nat>, s: Store)
      requires GoodStore(s) && GoodChain(chain, s) && (test in chain ==> Bound(e) !! row.Keys) && e.Call?
      ensures GoodParts(s, CallParts(prims, fuel, e, chain, s))
      ensures In(chain, e).Call?
      ensures CallParts(prims, fuel, In(chain, e), chain, ImageOfStore(s))
              == ImageOfParts(CallParts(prims, fuel, e, chain, s))
      decreases fuel, e, 0
    {
      EvalCommutes(prims, fuel, e.fn, chain, s);
      var f := Eval(prims, fuel, e.fn, chain, s);
      if f.Ok? {
        ChainStaysGood(chain, s, f.store);
        EvalAllCommutes(prims, fuel, e.args, chain, f.store);
        var vs := EvalAll(prims, fuel, e.args, chain, f.store);
        if vs.Ok? { ValStaysGood(f.value, f.store, vs.store); }
      }
    }

    lemma {:induction false} CallCommutes(prims: Prims, fuel: nat, e: Expr, chain: seq<nat>, s: Store)
      requires GoodStore(s) && GoodChain(chain, s) && (test in chain ==> Bound(e) !! row.Keys) && e.Call?
      ensures GoodOutcome(s, Eval(prims, fuel, e, chain, s))
      ensures Eval(prims, fuel, In(chain, e), chain, ImageOfStore(s)) == ImageOfVal(Eval(prims, fuel, e, chain, s))
      decreases fuel, e, 1
    {
      CallPartsCommute(prims, fuel, e, chain, s);
      var r := CallParts(prims, fuel, e, chain, s);
      if r.Ok? && fuel > 0 {
        InvokeCommutes(prims, fuel - 1, r.value.0, r.value.1, r.store);
        GoodOutcomeLater(s, r.store, Invoke(prims, fuel - 1, r.value.0, r.value.1, r.store));
      }
    }

    lemma {:induction false} InvokeCommutes(prims: Prims, fuel: nat, f: Val, args: seq<Val>, s: Store)
      requires GoodStore(s) && GoodVal(f, s) && GoodVals(args, s)
      ensures GoodOutcome(s, Invoke(prims, fuel, f, args, s))
      ensures Invoke(prims, fuel, Image(f), Images(args), ImageOfStore(s))
              == ImageOfVal(Invoke(prims, fuel, f, args, s))
      decreases fuel
    {
      if f.Closure? && |f.params| == |args| {
        BindCommutes(f.params, args);
        BindTakesArgs(f.params, args, s);
        var vals := Bind(f.params, args);
        FrameIsPushed(f.chain, s, f.locals, vals);
        var s1 := s + [Frame(f.locals, vals)];
        var chain := [|s|] + f.chain;
        match f.code
        case Expression(e) => EvalCommutes(prims, fuel, e, chain, s1);
        case Body(stmts) => ExecAllCommutes(prims, fuel, stmts, chain, s1);
      }
    }

    lemma {:induction false} CollectFromCommutes(prims: Prims, fuel: nat, e: Expr, v: Val, chain: seq<nat>, s: Store)
      requires GoodStore(s) && GoodChain(chain, s) && (test in chain ==> Bound(e) !! row.Keys) && e.Comprehension?
      requires GoodVal(v, s)
      ensures GoodOutcome(s, CollectFrom(prims, fuel, e, v, chain, s))
      ensures In(chain, e).Comprehension?
      ensures CollectFrom(prims, fuel, In(chain, e), Image(v), chain, ImageOfStore(s))
           == ImageOfVal(CollectFrom(prims, fuel, e, v, chain, s))
      decreases fuel, e, 0
    {
      if v.Tup? {
        FrameIsPushed(chain, s, {e.target}, map[]);
        var s1 := s + [Frame({e.target}, map[])];
        ValStaysGood(v, s, s1);
        CollectCommutes(prims, fuel, e.elt, e.target, v.elts, [|s|] + chain, s1, []);
        GoodOutcomeLater(s, s1, Collect(prims, fuel, e.elt, e.target, v.elts, [|s|] + chain, s1, []));
      }
    }

    lemma {:induction false} ComprehensionCommutes(prims: Prims, fuel: nat, e: Expr, chain: seq<nat>, s: Store)
      requires GoodStore(s) && GoodChain(chain, s) && (test in chain ==> Bound(e) !! row.Keys) && e.Comprehension?
      ensures GoodOutcome(s, Eval(prims, fuel, e, chain, s))
      ensures Eval(prims, fuel, In(chain, e), chain, ImageOfStore(s)) == ImageOfVal(Eval(prims, fuel, e, chain, s))
      decreases fuel, e, 1
    {
      EvalCommutes(prims, fuel, e.iter, chain, s);
      var r := Eval(prims, fuel, e.iter, chain, s);
      if r.Ok? {
        ChainStaysGood(chain, s, r.store);
        CollectFromCommutes(prims, fuel, e, r.value, chain, r.store);
        GoodOutcomeLater(s, r.store, CollectFrom(prims, fuel, e, r.value, chain, r.store));
      }
    }

    lemma {:induction false} EvalAllCommutes(prims: Prims, fuel: nat, es: seq<Expr>, chain: seq<nat>, s: Store)
      requires GoodStore(s) && GoodChain(chain, s) && (test in chain ==> BoundAll(es) !! row.Keys)
      ensures GoodOutcomes(s, EvalAll(prims, fuel, es, chain, s))
      ensures EvalAll(prims, fuel, InAll(chain, es), chain, ImageOfStore(s))
              == ImageOfVals(EvalAll(prims, fuel, es, chain, s))
      decreases fuel, es, 1
    {
      if es != [] {
        EvalCommutes(prims, fuel, es[0], chain, s);
        var r := Eval(prims, fuel, es[0], chain, s);
        if r.Ok? {
          ChainStaysGood(chain, s, r.store);
          EvalAllCommutes(prims, fuel, es[1..], chain, r.store);
          var rest := EvalAll(prims, fuel, es[1..], chain, r.store);
          if rest.Ok? { ValStaysGood(r.value, r.store, rest.store); }
        }
      }
    }

    lemma NextRoundIsGood(vals: seq<Val>, done: seq<Val>, v: Val, s: Store, s': Store)
      requires vals != [] && GoodVals(vals, s) && GoodVals(done, s) && GoodAfter(s, s') && GoodVal(v, s')
      ensures GoodVals(vals[1..], s') && GoodVals(done + [v], s')
      ensures Images(vals)[1..] == Images(vals[1..]) && Images(done + [v]) == Images(done) + [Image(v)]
    {
      ValsStayGood(vals[1..], s, s');
      ValsStayGood(done, s, s');
      ValsAppend(done, v);
    }

    lemma {:induction false} CollectCommutes(
        prims: Prims, fuel: nat, elt: Expr, target: string, vals: seq<Val>, chain: seq<nat>, s: Store,
        done: seq<Val>)
      requires GoodStore(s) && GoodChain(chain, s) && GoodVals(vals, s) && GoodVals(done, s)
      requires test in chain ==> target !in row && Bound(elt) !! row.Keys
      ensures GoodOutcome(s, Collect(prims, fuel, elt, target, vals, chain, s, done))
      ensures Collect(prims, fuel, In(chain, elt), target, Images(vals), chain, ImageOfStore(s), Images(done))
           == ImageOfVal(Collect(prims, fuel, elt, target, vals, chain, s, done))
      decreases fuel, elt, |vals| + 3
    {
      if vals != [] {
        CollectOneCommutes(prims, fuel, elt, target, vals[0], chain, s);
        var r := CollectOne(prims, fuel, elt, target, vals[0], chain, s);
        if r.Ok? {
          ChainStaysGood(chain, s, r.store);
          NextRoundIsGood(vals, done, r.value, s, r.store);
          CollectCommutes(prims, fuel, elt, target, vals[1..], chain, r.store, done + [r.value]);
          GoodOutcomeLater(s, r.store, Collect(prims, fuel, elt, target, vals[1..], chain, r.store, done + [r.value]));
        }
      }
    }

    lemma {:induction false} CollectOneCommutes(
        prims: Prims, fuel: nat, elt: Expr, target: string, v: Val, chain: seq<nat>, s: Store)
      requires GoodStore(s) && GoodChain(chain, s) && GoodVal(v, s)
      requires test in chain ==> target !in row && Bound(elt) !! row.Keys
      ensures GoodOutcome(s, CollectOne(prims, fuel, elt, target, v, chain, s))
      ensures CollectOne(prims, fuel, In(chain, elt), target, Image(v), chain, ImageOfStore(s))
           == ImageOfVal(CollectOne(prims, fuel, elt, target, v, chain, s))
      decreases fuel, elt, 3
    {
      SetNameCommutes(target, v, chain, s);
      var a := SetName(target, v, chain, s);
      if a.Ok? {
        ChainStaysGood(chain, s, a.store);
        EvalCommutes(prims, fuel, elt, chain, a.store);
      }
    }

    lemma {:induction false} ExecCommutes(prims: Prims, fuel: nat, st: Stmt, chain: seq<nat>, s: Store)
      requires GoodStore(s) && GoodChain(chain, s) && (test in chain ==> Rebound(st) !! row.Keys)
      ensures GoodRun(s, Exec(prims, fuel, st, chain, s))
      ensures Exec(prims, fuel, InStmt(chain, st), chain, ImageOfStore(s))
              == ImageOfRun(Exec(prims, fuel, st, chain, s))
      decreases fuel, st, 2
    {
      match st
      case Assign(_, _) => AssignCommutes(prims, fuel, st, chain, s);
      case ExprStmt(value) => EvalCommutes(prims, fuel, value, chain, s);
      case Return(value) => EvalCommutes(prims, fuel, value, chain, s);
      case Assert(test_) => EvalCommutes(prims, fuel, test_, chain, s);
      case Raise(value) => EvalCommutes(prims, fuel, value, chain, s);
      case If(_, _, _) => IfCommutes(prims, fuel, st, chain, s);
      case While(_, _) => WhileCommutes(prims, fuel, st, chain, s);
      case For(_, _, _) => ForCommutes(prims, fuel, st, chain, s);
      case Def(_, _, _) => DefCommutes(prims, fuel, st, chain, s);
      case Try(_, _, _) => TryCommutes(prims, fuel, st, chain, s);
      case Delete(id) => ForgetCommutes(id, chain, s);
      case Nonlocal(_) =>
    }

    lemma {:induction false} AssignCommutes(prims: Prims, fuel: nat, st: Stmt, chain: seq<nat>, s: Store)
      requires GoodStore(s) && GoodChain(chain, s) && (test in chain ==> Rebound(st) !! row.Keys) && st.Assign?
      ensures GoodRun(s, Exec(prims, fuel, st, chain, s))
      ensures Exec(prims, fuel, InStmt(chain, st), chain, ImageOfStore(s))
              == ImageOfRun(Exec(prims, fuel, st, chain, s))
      decreases fuel, st, 0
    {
      EvalCommutes(prims, fuel, st.value, chain, s);
      var r := Eval(prims, fuel, st.value, chain, s);
      if r.Ok? {
        ChainStaysGood(chain, s, r.store);
        SetNameCommutes(st.id, r.value, chain, r.store);
      }
    }

    lemma {:induction false} IfCommutes(prims: Prims, fuel: nat, st: Stmt, chain: seq<nat>, s: Store)
      requires GoodStore(s) && GoodChain(chain, s) && (test in chain ==> Rebound(st) !! row.Keys) && st.If?
      ensures GoodRun(s, Exec(prims, fuel, st, chain, s))
      ensures Exec(prims, fuel, InStmt(chain, st), chain, ImageOfStore(s))
              == ImageOfRun(Exec(prims, fuel, st, chain, s))
      decreases fuel, st, 0
    {
      EvalCommutes(prims, fuel, st.test, chain, s);
      var r := Eval(prims, fuel, st.test, chain, s);
      if r.Ok? {
        ChainStaysGood(chain, s, r.store);
        ExecAllCommutes(prims, fuel, if Truthy(r.value) then st.yes else st.no, chain, r.store);
      }
    }

    lemma {:induction false} ForCommutes(prims: Prims, fuel: nat, st: Stmt, chain: seq<nat>, s: Store)
      requires GoodStore(s) && GoodChain(chain, s) && (test in chain ==> Rebound(st) !! row.Keys) && st.For?
      ensures GoodRun(s, Exec(prims, fuel, st, chain, s))
      ensures Exec(prims, fuel, InStmt(chain, st), chain, ImageOfStore(s))
              == ImageOfRun(Exec(prims, fuel, st, chain, s))
      decreases fuel, st, 0
    {
      EvalCommutes(prims, fuel, st.iter, chain, s);
      var r := Eval(prims, fuel, st.iter, chain, s);
      if r.Ok? && r.value.Tup? {
        ChainStaysGood(chain, s, r.store);
        RoundsCommute(prims, fuel, st.target, r.value.elts, st.body, chain, r.store);
      }
    }

    lemma DefCommutes(prims: Prims, fuel: nat, st: Stmt, chain: seq<nat>, s: Store)
      requires GoodStore(s) && GoodChain(chain, s) && (test in chain ==> Rebound(st) !! row.Keys) && st.Def?
      ensures GoodRun(s, Exec(prims, fuel, st, chain, s))
      ensures Exec(prims, fuel, InStmt(chain, st), chain, ImageOfStore(s))
              == ImageOfRun(Exec(prims, fuel, st, chain, s))
    {
      AssignedAllIsRebound(st.body);
      SubstBodyKeepsLocals(row, st.body);
      var locals := Names(st.params) + (AssignedAll(st.body) - DeclaredAll(st.body));
      SetNameCommutes(st.id, Closure(st.params, locals, Body(st.body), chain), chain, s);
    }

    function ImageOfTurn(r: Outcome<Option<Flow>>): Outcome<Option<Flow>> {
      match r
      case Ok(turn, s) => Ok(if turn.None? then None else Some(ImageOfFlow(turn.value)), ImageOfStore(s))
      case Raised(x, s) => Raised(Image(x), ImageOfStore(s))
      case OutOfFuel => OutOfFuel
    }

    ghost predicate GoodTurn(s: Store, r: Outcome<Option<Flow>>) {
      match r
      case Ok(turn, s') => GoodAfter(s, s') && (turn.Some? && turn.value.Returned? ==> GoodVal(turn.value.value, s'))
      case Raised(x, s') => GoodAfter(s, s') && GoodVal(x, s')
      case OutOfFuel => true
    }

    lemma {:induction false} WhileTurnCommutes(prims: Prims, fuel: nat, st: Stmt, chain: seq<nat>, s: Store)
      requires GoodStore(s) && GoodChain(chain, s) && (test in chain ==> Rebound(st) !! row.Keys) && st.While?
      ensures GoodTurn(s, WhileTurn(prims, fuel, st, chain, s))
      ensures InStmt(chain, st).While?
      ensures WhileTurn(prims, fuel, InStmt(chain, st), chain, ImageOfStore(s))
              == ImageOfTurn(WhileTurn(prims, fuel, st, chain, s))
      decreases fuel, st, 0
    {
      EvalCommutes(prims, fuel, st.test, chain, s);
      var r := Eval(prims, fuel, st.test, chain, s);
      if r.Ok? && Truthy(r.value) {
        ChainStaysGood(chain, s, r.store);
        ExecAllCommutes(prims, fuel, st.body, chain, r.store);
      }
    }

    lemma {:induction false} WhileCommutes(prims: Prims, fuel: nat, st: Stmt, chain: seq<nat>, s: Store)
      requires GoodStore(s) && GoodChain(chain, s) && (test in chain ==> Rebound(st) !! row.Keys) && st.While?
      ensures GoodRun(s, Exec(prims, fuel, st, chain, s))
      ensures Exec(prims, fuel, InStmt(chain, st), chain, ImageOfStore(s))
              == ImageOfRun(Exec(prims, fuel, st, chain, s))
      decreases fuel, st, 1
    {
      WhileTurnCommutes(prims, fuel, st, chain, s);
      var r := WhileTurn(prims, fuel, st, chain, s);
      if r.Ok? && r.value.Some? && r.value.value.Next? && fuel > 0 {
        ChainStaysGood(chain, s, r.store);
        ExecCommutes(prims, fuel - 1, st, chain, r.store);
        GoodRunLater(s, r.store, Exec(prims, fuel - 1, st, chain, r.store));
      }
    }

    lemma {:induction false} TryCommutes(prims: Prims, fuel: nat, st: Stmt, chain: seq<nat>, s: Store)
      requires GoodStore(s) && GoodChain(chain, s) && (test in chain ==> Rebound(st) !! row.Keys) && st.Try?
      ensures GoodRun(s, Exec(prims, fuel, st, chain, s))
      ensures Exec(prims, fuel, InStmt(chain, st), chain, ImageOfStore(s))
              == ImageOfRun(Exec(prims, fuel, st, chain, s))
      decreases fuel, st, 0
    {
      ExecAllCommutes(prims, fuel, st.body, chain, s);
      var r := ExecAll(prims, fuel, st.body, chain, s);
      if r.Raised? {
        ChainStaysGood(chain, s, r.store);
        SetNameCommutes(st.name, r.exc, chain, r.store);
        var a := SetName(st.name, r.exc, chain, r.store);
        if a.Ok? {
          ChainStaysGood(chain, r.store, a.store);
          ExecAllCommutes(prims, fuel, st.handler, chain, a.store);
          UnbindCommutes(st.name, chain, a.store, ExecAll(prims, fuel, st.handler, chain, a.store));
        }
      }
    }

    lemma UnbindCommutes(x: string, chain: seq<nat>, s: Store, r: Outcome<Flow>)
      requires GoodStore(s) && GoodChain(chain, s) && (test in chain ==> x !in row) && GoodRun(s, r)
      ensures GoodRun(s, Unbind(x, chain, r))
      ensures Unbind(x, chain, ImageOfRun(r)) == ImageOfRun(Unbind(x, chain, r))
    {
      if !r.OutOfFuel? {
        ChainStaysGood(chain, s, r.store);
        ForgetCommutes(x, chain, r.store);
        var f := Forget(x, chain, r.store);
        if f.Ok? {
          if r.Raised? { ValStaysGood(r.exc, r.store, f.store); }
          else if r.value.Returned? { ValStaysGood(r.value.value, r.store, f.store); }
        }
      }
    }

    lemma {:induction false} RoundsCommute(
        prims: Prims, fuel: nat, target: string, vals: seq<Val>, body: seq<Stmt>, chain: seq<nat>, s: Store)
      requires GoodStore(s) && GoodChain(chain, s) && GoodVals(vals, s)
      requires test in chain ==> target !in row && ReboundAll(body) !! row.Keys
      ensures GoodRun(s, Rounds(prims, fuel, target, vals, body, chain, s))
      ensures Rounds(prims, fuel, target, Images(vals), InBody(chain, body), chain, ImageOfStore(s))
           == ImageOfRun(Rounds(prims, fuel, target, vals, body, chain, s))
      decreases fuel, body, |vals| + 2
    {
      if vals != [] {
        OneRoundCommutes(prims, fuel, target, vals[0], body, chain, s);
        var r := OneRound(prims, fuel, target, vals[0], body, chain, s);
        if r.Ok? && r.value.Next? {
          ChainStaysGood(chain, s, r.store);
          ValsStayGood(vals[1..], s, r.store);
          assert Images(vals)[1..] == Images(vals[1..]);
          RoundsCommute(prims, fuel, target, vals[1..], body, chain, r.store);
          GoodRunLater(s, r.store, Rounds(prims, fuel, target, vals[1..], body, chain, r.store));
        }
      }
    }

    lemma {:induction false} OneRoundCommutes(
        prims: Prims, fuel: nat, target: string, v: Val, body: seq<Stmt>, chain: seq<nat>, s: Store)
      requires GoodStore(s) && GoodChain(chain, s) && GoodVal(v, s)
      requires test in chain ==> target !in row && ReboundAll(body) !! row.Keys
      ensures GoodRun(s, OneRound(prims, fuel, target, v, body, chain, s))
      ensures OneRound(prims, fuel, target, Image(v), InBody(chain, body), chain, ImageOfStore(s))
           == ImageOfRun(OneRound(prims, fuel, target, v, body, chain, s))
      decreases fuel, body, 2
    {
      SetNameCommutes(target, v, chain, s);
      var a := SetName(target, v, chain, s);
      if a.Ok? {
        ChainStaysGood(chain, s, a.store);
        ExecAllCommutes(prims, fuel, body, chain, a.store);
      }
    }

    lemma {:induction false} ExecAllCommutes(prims: Prims, fuel: nat, body: seq<Stmt>, chain: seq<nat>, s: Store)
      requires GoodStore(s) && GoodChain(chain, s) && (test in chain ==> ReboundAll(body) !! row.Keys)
      ensures GoodRun(s, ExecAll(prims, fuel, body, chain, s))
      ensures ExecAll(prims, fuel, InBody(chain, body), chain, ImageOfStore(s))
              == ImageOfRun(ExecAll(prims, fuel, body, chain, s))
      decreases fuel, body, 1
    {
      if body != [] {
        ExecCommutes(prims, fuel, body[0], chain, s);
        var r := Exec(prims, fuel, body[0], chain, s);
        if r.Ok? && r.value.Next? {
          ChainStaysGood(chain, s, r.store);
          ExecAllCommutes(prims, fuel, body[1..], chain, r.store);
        }
      }
    }
  }
}
