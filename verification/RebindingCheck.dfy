/** The rebinding check as the analyser runs it, node by node over a walk of the body
    (scripts/audit_tests.py), against the names that the body binds. */
module RebindingCheck {
  import opened ParamSubstitution

  // ----- The walk -----

  /** What the check can see of a syntax node. A name is read, written or deleted. */
  datatype Node =
    | ReadName(id: string)
    | WrittenName(id: string)
    | DeletedName(id: string)
    | Arg(name: string)
    | FunctionDef(name: string)
    | ExceptHandler(name: string)
    | Scoping(names: set<string>)
    | Other

  /** A node on the walk, and whether it belongs to the function that is walked itself, not to a function
      or comprehension inside it. */
  datatype Visit = Visit(node: Node, own: bool)

  function Args(params: seq<string>): (r: seq<Visit>)
    ensures |r| == |params| && forall i | 0 <= i < |params| :: r[i] == Visit(Arg(params[i]), false)
  {
    seq(|params|, i requires 0 <= i < |params| => Visit(Arg(params[i]), false))
  }

  /** All nodes of an expression. Lambdas have a scope of their own, and so do the targets of
      comprehensions; an assignment expression binds in the function around the comprehension. */
  function Walk(e: Expr, own: bool): seq<Visit> {
    match e
    case Const(_) => [Visit(Other, own)]
    case Name(id) => [Visit(ReadName(id), own)]
    case TupleOf(elts) => [Visit(Other, own)] + WalkEach(elts, own)
    case Neg(operand) => [Visit(Other, own)] + Walk(operand, own)
    case Prim(_, args) => [Visit(Other, own)] + WalkEach(args, own)
    case IfExp(test, yes, no) => [Visit(Other, own)] + Walk(test, own) + Walk(yes, own) + Walk(no, own)
    case Call(fn, args) => [Visit(Other, own)] + Walk(fn, own) + WalkEach(args, own)
    case Lambda(params, value) => [Visit(Other, own)] + Args(params) + Walk(value, false)
    case Comprehension(elt, target, iter) =>
      [Visit(Other, own)] + Walk(elt, own) + [Visit(WrittenName(target), false)] + Walk(iter, own)
    case NamedExpr(id, value) => [Visit(Other, own)] + [Visit(WrittenName(id), own)] + Walk(value, own)
  }

  function WalkEach(es: seq<Expr>, own: bool): seq<Visit> {
    if es == [] then [] else Walk(es[0], own) + WalkEach(es[1..], own)
  }

  /** All nodes of a statement. */
  function WalkStmt(st: Stmt, own: bool): seq<Visit> {
    match st
    case Assign(id, value) => [Visit(Other, own)] + [Visit(WrittenName(id), own)] + Walk(value, own)
    case ExprStmt(value) => [Visit(Other, own)] + Walk(value, own)
    case Return(value) => [Visit(Other, own)] + Walk(value, own)
    case Assert(test) => [Visit(Other, own)] + Walk(test, own)
    case Raise(value) => [Visit(Other, own)] + Walk(value, own)
    case If(test, yes, no) => [Visit(Other, own)] + Walk(test, own) + WalkBody(yes, own) + WalkBody(no, own)
    case While(test, body) => [Visit(Other, own)] + Walk(test, own) + WalkBody(body, own)
    case For(target, iter, body) =>
      [Visit(Other, own)] + [Visit(WrittenName(target), own)] + Walk(iter, own) + WalkBody(body, own)
    case Def(id, params, body) => [Visit(FunctionDef(id), own)] + Args(params) + WalkBody(body, false)
    case Try(body, name, handler) =>
      [Visit(Other, own)] + WalkBody(body, own) + [Visit(ExceptHandler(name), own)] + WalkBody(handler, own)
    case Delete(id) => [Visit(Other, own)] + [Visit(DeletedName(id), own)]
    case Nonlocal(ids) => [Visit(Scoping(ids), own)]
  }

  function WalkBody(body: seq<Stmt>, own: bool): seq<Visit> {
    if body == [] then [] else WalkStmt(body[0], own) + WalkBody(body[1..], own)
  }

  /** The node binds one of the names again. */
  predicate Rebinds(node: Node, names: set<string>) {
    match node
    case ReadName(_) => false
    case WrittenName(id) => id in names
    case DeletedName(id) => id in names
    case Arg(name) => name in names
    case FunctionDef(name) => name in names
    case ExceptHandler(name) => name in names
    case Scoping(declared) => names * declared != {}
    case Other => false
  }

  // ----- The check finds what is bound, and nothing else -----

  /** The names that `of` finds in the nodes of a walk. */
  ghost function Gather(of: Visit -> set<string>, visits: seq<Visit>): set<string> {
    set visit, x | visit in visits && x in of(visit) :: x
  }

  /** The names a node binds or declares. */
  function Target(node: Node): set<string> {
    match node
    case WrittenName(id) => {id}
    case DeletedName(id) => {id}
    case Arg(name) => {name}
    case FunctionDef(name) => {name}
    case ExceptHandler(name) => {name}
    case Scoping(names) => names
    case _ => {}
  }

  function Bindings(visit: Visit): set<string> {
    Target(visit.node)
  }

  /** What the walked function itself binds. */
  function OwnBindings(visit: Visit): set<string> {
    if visit.own && !visit.node.Scoping? then Target(visit.node) else {}
  }

  /** What the walked function itself declares not to be its own. */
  function OwnDeclarations(visit: Visit): set<string> {
    if visit.own && visit.node.Scoping? then Target(visit.node) else {}
  }

  lemma GatherTwo(of: Visit -> set<string>, a: seq<Visit>, b: seq<Visit>)
    ensures Gather(of, a + b) == Gather(of, a) + Gather(of, b)
  {
    forall x ensures x in Gather(of, a + b) <==> x in Gather(of, a) + Gather(of, b) {
      if x in Gather(of, a + b) {
        var visit :| visit in a + b && x in of(visit);
        assert visit in a || visit in b;
      }
      if x in Gather(of, a) {
        var visit :| visit in a && x in of(visit);
        assert visit in a + b;
      }
      if x in Gather(of, b) {
        var visit :| visit in b && x in of(visit);
        assert visit in a + b;
      }
    }
  }

  lemma GatherOne(of: Visit -> set<string>, visit: Visit)
    ensures Gather(of, [visit]) == of(visit)
  {
    assert visit in [visit];
  }

  /** What is bound anywhere, and what the walked function itself binds and declares. */
  datatype Summary = Summary(bound: set<string>, locals: set<string>, declared: set<string>)

  ghost function SumOf(visits: seq<Visit>): Summary {
    Summary(Gather(Bindings, visits), Gather(OwnBindings, visits), Gather(OwnDeclarations, visits))
  }

  function Plus(a: Summary, b: Summary): Summary {
    Summary(a.bound + b.bound, a.locals + b.locals, a.declared + b.declared)
  }

  lemma SumOfTwo(a: seq<Visit>, b: seq<Visit>)
    ensures SumOf(a + b) == Plus(SumOf(a), SumOf(b))
  {
    GatherTwo(Bindings, a, b);
    GatherTwo(OwnBindings, a, b);
    GatherTwo(OwnDeclarations, a, b);
  }

  lemma SumOfThree(a: seq<Visit>, b: seq<Visit>, c: seq<Visit>)
    ensures SumOf(a + b + c) == Plus(Plus(SumOf(a), SumOf(b)), SumOf(c))
  {
    SumOfTwo(a + b, c);
    SumOfTwo(a, b);
  }

  lemma SumOfFour(a: seq<Visit>, b: seq<Visit>, c: seq<Visit>, d: seq<Visit>)
    ensures SumOf(a + b + c + d) == Plus(Plus(Plus(SumOf(a), SumOf(b)), SumOf(c)), SumOf(d))
  {
    SumOfTwo(a + b + c, d);
    SumOfThree(a, b, c);
  }

  lemma SumOfOne(visit: Visit)
    ensures SumOf([visit]) == Summary(Bindings(visit), OwnBindings(visit), OwnDeclarations(visit))
  {
    GatherOne(Bindings, visit);
    GatherOne(OwnBindings, visit);
    GatherOne(OwnDeclarations, visit);
  }

  lemma SumOfArgs(params: seq<string>)
    ensures SumOf(Args(params)) == Summary(Names(params), {}, {})
  {
    forall x ensures x in Gather(Bindings, Args(params)) <==> x in Names(params) {
      if x in Names(params) {
        var i :| 0 <= i < |params| && params[i] == x;
        assert Args(params)[i] in Args(params) && x in Bindings(Args(params)[i]);
      }
    }
  }

  // What the walk has to find

  function InExpr(e: Expr, own: bool): Summary {
    Summary(Bound(e), if own then Walrus(e) else {}, {})
  }

  function InExprs(es: seq<Expr>, own: bool): Summary {
    Summary(BoundAll(es), if own then WalrusAll(es) else {}, {})
  }

  function InStmt(st: Stmt, own: bool): Summary {
    Summary(Rebound(st), if own then Assigned(st) else {}, if own then Declared(st) else {})
  }

  function InBody(body: seq<Stmt>, own: bool): Summary {
    Summary(ReboundAll(body), if own then AssignedAll(body) else {}, if own then DeclaredAll(body) else {})
  }

  lemma {:induction false} WalkFinds(e: Expr, own: bool)
    ensures SumOf(Walk(e, own)) == InExpr(e, own)
    decreases e, 1
  {
    SumOfOne(Visit(Other, own));
    match e
    case Const(_) =>
    case Name(id) => SumOfOne(Visit(ReadName(id), own));
    case TupleOf(elts) => WalkEachFinds(elts, own); SumOfTwo([Visit(Other, own)], WalkEach(elts, own));
    case Neg(operand) => WalkFinds(operand, own); SumOfTwo([Visit(Other, own)], Walk(operand, own));
    case Prim(_, args) => WalkEachFinds(args, own); SumOfTwo([Visit(Other, own)], WalkEach(args, own));
    case IfExp(_, _, _) => FindsInIfExp(e, own);
    case Call(_, _) => FindsInCall(e, own);
    case Lambda(_, _) => FindsInLambda(e, own);
    case Comprehension(_, _, _) => FindsInComprehension(e, own);
    case NamedExpr(_, _) => FindsInNamedExpr(e, own);
  }

  lemma {:induction false} FindsInIfExp(e: Expr, own: bool)
    requires e.IfExp?
    ensures SumOf(Walk(e, own)) == InExpr(e, own)
    decreases e, 0
  {
    SumOfOne(Visit(Other, own));
    WalkFinds(e.test, own);
    WalkFinds(e.yes, own);
    WalkFinds(e.no, own);
    SumOfFour([Visit(Other, own)], Walk(e.test, own), Walk(e.yes, own), Walk(e.no, own));
  }

  lemma {:induction false} FindsInCall(e: Expr, own: bool)
    requires e.Call?
    ensures SumOf(Walk(e, own)) == InExpr(e, own)
    decreases e, 0
  {
    SumOfOne(Visit(Other, own));
    WalkFinds(e.fn, own);
    WalkEachFinds(e.args, own);
    SumOfThree([Visit(Other, own)], Walk(e.fn, own), WalkEach(e.args, own));
  }

  lemma {:induction false} FindsInLambda(e: Expr, own: bool)
    requires e.Lambda?
    ensures SumOf(Walk(e, own)) == InExpr(e, own)
    decreases e, 0
  {
    SumOfOne(Visit(Other, own));
    SumOfArgs(e.params);
    WalkFinds(e.value, false);
    SumOfThree([Visit(Other, own)], Args(e.params), Walk(e.value, false));
  }

  lemma {:induction false} FindsInComprehension(e: Expr, own: bool)
    requires e.Comprehension?
    ensures SumOf(Walk(e, own)) == InExpr(e, own)
    decreases e, 0
  {
    SumOfOne(Visit(Other, own));
    var target := Visit(WrittenName(e.target), false);
    WalkFinds(e.elt, own);
    SumOfOne(target);
    WalkFinds(e.iter, own);
    SumOfFour([Visit(Other, own)], Walk(e.elt, own), [target], Walk(e.iter, own));
  }

  lemma {:induction false} FindsInNamedExpr(e: Expr, own: bool)
    requires e.NamedExpr?
    ensures SumOf(Walk(e, own)) == InExpr(e, own)
    decreases e, 0
  {
    SumOfOne(Visit(Other, own));
    SumOfOne(Visit(WrittenName(e.id), own));
    WalkFinds(e.value, own);
    SumOfThree([Visit(Other, own)], [Visit(WrittenName(e.id), own)], Walk(e.value, own));
  }

  lemma {:induction false} WalkEachFinds(es: seq<Expr>, own: bool)
    ensures SumOf(WalkEach(es, own)) == InExprs(es, own)
    decreases es, 0
  {
    if es != [] {
      WalkFinds(es[0], own);
      WalkEachFinds(es[1..], own);
      SumOfTwo(Walk(es[0], own), WalkEach(es[1..], own));
    }
  }

  lemma {:induction false} WalkStmtFinds(st: Stmt, own: bool)
    ensures SumOf(WalkStmt(st, own)) == InStmt(st, own)
    decreases st, 1
  {
    match st
    case Assign(_, _) => FindsInAssign(st, own);
    case ExprStmt(value) => FindsInValue(value, own);
    case Return(value) => FindsInValue(value, own);
    case Assert(test) => FindsInValue(test, own);
    case Raise(value) => FindsInValue(value, own);
    case If(_, _, _) => FindsInIf(st, own);
    case While(_, _) => FindsInWhile(st, own);
    case For(_, _, _) => FindsInFor(st, own);
    case Def(_, _, _) => FindsInDef(st, own);
    case Try(_, _, _) => FindsInTry(st, own);
    case Delete(_) => FindsInDelete(st, own);
    case Nonlocal(ids) => SumOfOne(Visit(Scoping(ids), own));
  }

  lemma FindsInValue(value: Expr, own: bool)
    ensures SumOf([Visit(Other, own)] + Walk(value, own)) == InExpr(value, own)
  {
    SumOfOne(Visit(Other, own));
    WalkFinds(value, own);
    SumOfTwo([Visit(Other, own)], Walk(value, own));
  }

  lemma {:induction false} FindsInDelete(st: Stmt, own: bool)
    requires st.Delete?
    ensures SumOf(WalkStmt(st, own)) == InStmt(st, own)
    decreases st, 0
  {
    SumOfOne(Visit(Other, own));
    SumOfOne(Visit(DeletedName(st.id), own));
    SumOfTwo([Visit(Other, own)], [Visit(DeletedName(st.id), own)]);
  }

  lemma {:induction false} FindsInAssign(st: Stmt, own: bool)
    requires st.Assign?
    ensures SumOf(WalkStmt(st, own)) == InStmt(st, own)
    decreases st, 0
  {
    SumOfOne(Visit(Other, own));
    SumOfOne(Visit(WrittenName(st.id), own));
    WalkFinds(st.value, own);
    SumOfThree([Visit(Other, own)], [Visit(WrittenName(st.id), own)], Walk(st.value, own));
  }

  lemma {:induction false} FindsInIf(st: Stmt, own: bool)
    requires st.If?
    ensures SumOf(WalkStmt(st, own)) == InStmt(st, own)
    decreases st, 0
  {
    SumOfOne(Visit(Other, own));
    WalkFinds(st.test, own);
    WalkBodyFinds(st.yes, own);
    WalkBodyFinds(st.no, own);
    SumOfFour([Visit(Other, own)], Walk(st.test, own), WalkBody(st.yes, own), WalkBody(st.no, own));
    IfIsSum(st, own);
  }

  lemma IfIsSum(st: Stmt, own: bool)
    requires st.If?
    ensures Plus(Plus(Plus(Summary({}, {}, {}), InExpr(st.test, own)), InBody(st.yes, own)), InBody(st.no, own)) ==
            InStmt(st, own)
  {
  }

  lemma {:induction false} FindsInWhile(st: Stmt, own: bool)
    requires st.While?
    ensures SumOf(WalkStmt(st, own)) == InStmt(st, own)
    decreases st, 0
  {
    SumOfOne(Visit(Other, own));
    WalkFinds(st.test, own);
    WalkBodyFinds(st.body, own);
    SumOfThree([Visit(Other, own)], Walk(st.test, own), WalkBody(st.body, own));
  }

  lemma {:induction false} FindsInFor(st: Stmt, own: bool)
    requires st.For?
    ensures SumOf(WalkStmt(st, own)) == InStmt(st, own)
    decreases st, 0
  {
    SumOfOne(Visit(Other, own));
    var target := Visit(WrittenName(st.target), own);
    SumOfOne(target);
    WalkFinds(st.iter, own);
    WalkBodyFinds(st.body, own);
    SumOfFour([Visit(Other, own)], [target], Walk(st.iter, own), WalkBody(st.body, own));
    ForIsSum(st, own);
  }

  lemma ForIsSum(st: Stmt, own: bool)
    requires st.For?
    ensures var target := Summary({st.target}, if own then {st.target} else {}, {});
      Plus(Plus(Plus(Summary({}, {}, {}), target), InExpr(st.iter, own)), InBody(st.body, own)) == InStmt(st, own)
  {
  }

  lemma {:induction false} FindsInDef(st: Stmt, own: bool)
    requires st.Def?
    ensures SumOf(WalkStmt(st, own)) == InStmt(st, own)
    decreases st, 0
  {
    var def := Visit(FunctionDef(st.id), own);
    SumOfOne(def);
    SumOfArgs(st.params);
    WalkBodyFinds(st.body, false);
    SumOfThree([def], Args(st.params), WalkBody(st.body, false));
  }

  lemma {:induction false} FindsInTry(st: Stmt, own: bool)
    requires st.Try?
    ensures SumOf(WalkStmt(st, own)) == InStmt(st, own)
    decreases st, 0
  {
    SumOfOne(Visit(Other, own));
    var handler := Visit(ExceptHandler(st.name), own);
    WalkBodyFinds(st.body, own);
    SumOfOne(handler);
    WalkBodyFinds(st.handler, own);
    SumOfFour([Visit(Other, own)], WalkBody(st.body, own), [handler], WalkBody(st.handler, own));
    TryIsSum(st, own);
  }

  lemma TryIsSum(st: Stmt, own: bool)
    requires st.Try?
    ensures var name := Summary({st.name}, if own then {st.name} else {}, {});
      Plus(Plus(Plus(Summary({}, {}, {}), InBody(st.body, own)), name), InBody(st.handler, own)) == InStmt(st, own)
  {
  }

  lemma {:induction false} WalkBodyFinds(body: seq<Stmt>, own: bool)
    ensures SumOf(WalkBody(body, own)) == InBody(body, own)
    decreases body, 0
  {
    if body != [] {
      WalkStmtFinds(body[0], own);
      WalkBodyFinds(body[1..], own);
      SumOfTwo(WalkStmt(body[0], own), WalkBody(body[1..], own));
    }
  }

  /** Some node rebinds a name of the set if and only if the body binds one. */
  lemma CheckIsExact(body: seq<Stmt>, names: set<string>)
    ensures (exists visit <- WalkBody(body, true) :: Rebinds(visit.node, names)) <==> ReboundAll(body) * names != {}
  {
    var visits := WalkBody(body, true);
    WalkBodyFinds(body, true);
    assert Gather(Bindings, visits) == SumOf(visits).bound;
    forall visit: Visit ensures Rebinds(visit.node, names) <==> Bindings(visit) * names != {} {
      RebindsIff(visit.node, names);
    }
    if visit :| visit in visits && Rebinds(visit.node, names) {
      var x :| x in Bindings(visit) * names;
      assert x in Gather(Bindings, visits) * names;
    }
    if ReboundAll(body) * names != {} {
      var x :| x in Gather(Bindings, visits) * names;
      var visit :| visit in visits && x in Bindings(visit);
      assert x in Bindings(visit) * names;
    }
  }

  lemma RebindsIff(node: Node, names: set<string>)
    ensures Rebinds(node, names) <==> Target(node) * names != {}
  {
    forall x | x in Target(node) && x in names ensures x in Target(node) * names {}
    if node.Scoping? {
      assert names * node.names == Target(node) * names;
    } else if Rebinds(node, names) {
      var x :| x in Target(node);
      assert x in Target(node) * names;
    }
  }

  /** The local names of a body are those that a node of the function itself binds, unless one of them
      declares the name; functions and comprehensions inside have names of their own. */
  lemma LocalsAreOwnBindings(body: seq<Stmt>)
    ensures AssignedAll(body) - DeclaredAll(body) ==
            Gather(OwnBindings, WalkBody(body, true)) - Gather(OwnDeclarations, WalkBody(body, true))
  {
    WalkBodyFinds(body, true);
    var found := SumOf(WalkBody(body, true));
    assert found.locals == AssignedAll(body) && found.declared == DeclaredAll(body);
  }

  // ----- Reading a parameter is no binding -----

  lemma {:induction false} LiteralBindsNothing(e: Expr)
    requires IsLiteral(e)
    ensures Bound(e) == {}
    decreases e, 0
  {
    if e.TupleOf? { LiteralsBindNothing(e.elts); }
  }

  lemma {:induction false} LiteralsBindNothing(es: seq<Expr>)
    requires AreLiterals(es)
    ensures BoundAll(es) == {}
    decreases es, 0
  {
    if es != [] { LiteralBindsNothing(es[0]); LiteralsBindNothing(es[1..]); }
  }

  lemma {:induction false} SubstKeepsBound(row: Row, e: Expr)
    requires forall p <- row :: IsLiteral(row[p])
    ensures Bound(Subst(row, e)) == Bound(e)
    decreases e, 0
  {
    match e
    case Const(_) =>
    case Name(id) => if id in row { LiteralBindsNothing(row[id]); }
    case TupleOf(elts) => SubstEachKeepsBound(row, elts);
    case Neg(operand) => SubstKeepsBound(row, operand);
    case Prim(_, args) => SubstEachKeepsBound(row, args);
    case IfExp(test, yes, no) =>
      SubstKeepsBound(row, test); SubstKeepsBound(row, yes); SubstKeepsBound(row, no);
    case Call(fn, args) => SubstKeepsBound(row, fn); SubstEachKeepsBound(row, args);
    case Lambda(_, value) => SubstKeepsBound(row, value);
    case Comprehension(elt, _, iter) => SubstKeepsBound(row, elt); SubstKeepsBound(row, iter);
    case NamedExpr(_, value) => SubstKeepsBound(row, value);
  }

  lemma {:induction false} SubstEachKeepsBound(row: Row, es: seq<Expr>)
    requires forall p <- row :: IsLiteral(row[p])
    ensures BoundAll(SubstAll(row, es)) == BoundAll(es)
    decreases es, 0
  {
    if es != [] {
      SubstKeepsBound(row, es[0]);
      SubstEachKeepsBound(row, es[1..]);
      assert SubstAll(row, es)[1..] == SubstAll(row, es[1..]);
    }
  }

  lemma {:induction false} SubstStmtKeepsRebound(row: Row, st: Stmt)
    requires forall p <- row :: IsLiteral(row[p])
    ensures Rebound(SubstStmt(row, st)) == Rebound(st)
    decreases st, 0
  {
    match st
    case Assign(_, value) => SubstKeepsBound(row, value);
    case ExprStmt(value) => SubstKeepsBound(row, value);
    case Return(value) => SubstKeepsBound(row, value);
    case Assert(test) => SubstKeepsBound(row, test);
    case Raise(value) => SubstKeepsBound(row, value);
    case If(test, yes, no) =>
      SubstKeepsBound(row, test); SubstKeepsRebound(row, yes); SubstKeepsRebound(row, no);
    case While(test, body) => SubstKeepsBound(row, test); SubstKeepsRebound(row, body);
    case For(_, iter, body) => SubstKeepsBound(row, iter); SubstKeepsRebound(row, body);
    case Def(_, _, body) => SubstKeepsRebound(row, body);
    case Try(body, _, handler) => SubstKeepsRebound(row, body); SubstKeepsRebound(row, handler);
    case Delete(_) =>
    case Nonlocal(_) =>
  }

  /** Putting literals in the place of the names a body reads changes nothing for the check. */
  lemma {:induction false} SubstKeepsRebound(row: Row, body: seq<Stmt>)
    requires forall p <- row :: IsLiteral(row[p])
    ensures ReboundAll(SubstBody(row, body)) == ReboundAll(body)
    decreases body, 0
  {
    if body != [] {
      SubstStmtKeepsRebound(row, body[0]);
      SubstKeepsRebound(row, body[1..]);
      assert SubstBody(row, body)[1..] == SubstBody(row, body[1..]);
    }
  }
}
