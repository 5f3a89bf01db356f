/** Expanding a parametrized test, and running it row by row as the test runner does: the test function
    is called in a frame of its own (scripts/audit_tests.py). */
module ParametrizedRuns {
  import opened ParamSubstitution
  import opened RebindingCheck

  // ----- Expanding a parametrized test -----

  /** A parametrized test: argument names, the literal rows and the body. */
  datatype Parametrized = Parametrized(argnames: seq<string>, rows: seq<seq<Expr>>, body: seq<Stmt>) {
    /** Every row has one literal per argument, as `parametrize_rows` guarantees. */
    ghost predicate Tabulated() {
      forall i | 0 <= i < |rows| :: |rows[i]| == |argnames| && AreLiterals(rows[i])
    }

    /** The body with row `i` put in. */
    function Expansion(i: nat): seq<Stmt>
      requires Tabulated() && i < |rows|
    {
      SubstBody(RowOf(argnames, rows[i]), body)
    }

    /** Row `i` is the first one that expands to `b`. */
    ghost predicate FirstFor(b: seq<Stmt>, i: nat)
      requires Tabulated()
    {
      i < |rows| && b == Expansion(i) && forall j: nat | j < i :: b != Expansion(j)
    }

    /** The expansions of the first `n` rows, each with the first row that gives it. */
    ghost predicate Recorded(found: map<seq<Stmt>, seq<Expr>>, n: nat)
      requires Tabulated() && n <= |rows|
    {
      && (forall i: nat | i < n :: Expansion(i) in found)
      && forall b <- found :: exists i: nat :: i < n && FirstFor(b, i) && found[b] == rows[i]
    }
  }

  function RowOf(argnames: seq<string>, row: seq<Expr>): Row
    requires |argnames| == |row|
  {
    if argnames == [] then map[] else map[argnames[0] := row[0]] + RowOf(argnames[1..], row[1..])
  }

  lemma {:induction false} RowIsLiteral(argnames: seq<string>, row: seq<Expr>)
    requires |argnames| == |row| && AreLiterals(row)
    ensures RowOf(argnames, row).Keys == Names(argnames)
    ensures forall p <- RowOf(argnames, row) :: IsLiteral(RowOf(argnames, row)[p])
    decreases |row|
  {
    if argnames != [] {
      RowIsLiteral(argnames[1..], row[1..]);
      assert Names(argnames) == {argnames[0]} + Names(argnames[1..]);
    }
  }

  /** The substituted bodies with the first row that gives each; None when the body rebinds a parameter. */
  method ExpandedBodies(test: Parametrized) returns (byBody: Option<map<seq<Stmt>, seq<Expr>>>)
    requires test.Tabulated()
    ensures byBody.None? <==> exists visit <- WalkBody(test.body, true) :: Rebinds(visit.node, Names(test.argnames))
    ensures byBody.None? <==> ReboundAll(test.body) * Names(test.argnames) != {}
    ensures byBody.Some? ==> test.Recorded(byBody.value, |test.rows|)
  {
    CheckIsExact(test.body, Names(test.argnames));
    if exists visit <- WalkBody(test.body, true) :: Rebinds(visit.node, Names(test.argnames)) {
      return None;
    }
    var found: map<seq<Stmt>, seq<Expr>> := map[];
    for n := 0 to |test.rows|
      invariant test.Recorded(found, n)
    {
      var b := SubstBody(RowOf(test.argnames, test.rows[n]), test.body);
      RecordRow(test, found, n);
      if b !in found {
        found := found[b := test.rows[n]];
      }
    }
    byBody := Some(found);
  }

  lemma RecordRow(test: Parametrized, found: map<seq<Stmt>, seq<Expr>>, n: nat)
    requires test.Tabulated() && n < |test.rows| && test.Recorded(found, n)
    ensures var b := test.Expansion(n);
      test.Recorded(if b in found then found else found[b := test.rows[n]], n + 1)
  {
  }

  /** Preservation of meaning: with the parameters bound to the row, the body runs exactly like the
      substituted body without any parameters, for every amount of fuel, in every surrounding store,
      up to the substitution inside functions the test itself defined. */
  lemma ExpansionPreservesMeaning(
      prims: Prims, fuel: nat, test: Parametrized, r: seq<Expr>, frame: nat, chain: seq<nat>, s: Store)
    requires test.Tabulated() && r in test.rows
    requires ReboundAll(test.body) * Names(test.argnames) == {}
    requires var c := Setting(frame, RowOf(test.argnames, r)); c.GoodStore(s) && c.GoodChain([frame] + chain, s)
    ensures var c := Setting(frame, RowOf(test.argnames, r));
      ExecAll(prims, fuel, SubstBody(c.row, test.body), [frame] + chain, c.ImageOfStore(s))
      == c.ImageOfRun(ExecAll(prims, fuel, test.body, [frame] + chain, s))
  {
    RowIsLiteral(test.argnames, r);
    NothingShared(ReboundAll(test.body), Names(test.argnames));
    var c := Setting(frame, RowOf(test.argnames, r));
    c.ExecAllCommutes(prims, fuel, test.body, [frame] + chain, s);
  }

  lemma NothingShared(a: set<string>, b: set<string>)
    requires a * b == {}
    ensures a !! b
  {
    forall x | x in a ensures x !in b {
      assert x in b ==> x in a * b;
    }
  }

  // ----- Stores before the call -----

  /** The functions inside a value see existing frames only. */
  ghost predicate Known(v: Val, frames: nat)
    decreases v
  {
    match v
    case Atomic(_) => true
    case Tup(elts) => forall i | 0 <= i < |elts| :: Known(elts[i], frames)
    case Closure(_, _, _, chain) => KnownChain(chain, frames)
  }

  ghost predicate KnownChain(chain: seq<nat>, frames: nat) {
    forall i | 0 <= i < |chain| :: chain[i] < frames
  }

  /** Every reference of the store is in range. */
  ghost predicate InRange(s: Store) {
    forall i, x | 0 <= i < |s| && x in s[i].vals :: Known(s[i].vals[x], |s|)
  }

  // ----- The call -----

  function LocalsOf(params: seq<string>, body: seq<Stmt>): set<string> {
    Names(params) + (AssignedAll(body) - DeclaredAll(body))
  }

  /** A call of a function defined under `chain`: a new frame with the parameters, then the body. */
  function Run(prims: Prims, fuel: nat, params: seq<string>, args: seq<Val>, body: seq<Stmt>, chain: seq<nat>, s: Store)
    : Outcome<Flow>
    requires |params| == |args|
  {
    ExecAll(prims, fuel, body, [|s|] + chain, s + [Frame(LocalsOf(params, body), Bind(params, args))])
  }

  /** The test called with row `r`, and the same test with the row put in and no parameters. */
  function RunRow(prims: Prims, fuel: nat, test: Parametrized, r: seq<Expr>, chain: seq<nat>, s: Store): Outcome<Flow>
    requires test.Tabulated() && r in test.rows
  {
    Run(prims, fuel, test.argnames, LiteralValues(r), test.body, chain, s)
  }

  function RunExpanded(prims: Prims, fuel: nat, test: Parametrized, r: seq<Expr>, chain: seq<nat>, s: Store)
    : Outcome<Flow>
    requires test.Tabulated() && r in test.rows
  {
    Run(prims, fuel, [], [], SubstBody(RowOf(test.argnames, r), test.body), chain, s)
  }

  lemma {:induction false} BindIsRow(argnames: seq<string>, r: seq<Expr>)
    requires |argnames| == |r| && AreLiterals(r)
    ensures var bound, row := Bind(argnames, LiteralValues(r)), RowOf(argnames, r);
      bound.Keys == row.Keys && forall p <- row :: IsLiteral(row[p]) && bound[p] == LiteralValue(row[p])
    decreases |r|
  {
    if argnames != [] {
      BindIsRow(argnames[1..], r[1..]);
      assert LiteralValues(r)[1..] == LiteralValues(r[1..]);
    }
  }

  // ----- What was there before looks the same in both runs -----

  lemma {:induction false} KnownChainIsGood(c: Setting, chain: seq<nat>, s: Store)
    requires KnownChain(chain, c.test) && c.test <= |s|
    ensures c.GoodChain(chain, s) && c.test !in chain
  {
    if chain != [] {
      KnownChainIsGood(c, chain[1..], s);
      assert forall i | 0 < i < |chain| :: chain[i] == chain[1..][i - 1];
    }
  }

  lemma {:induction false} KnownIsGood(c: Setting, v: Val, s: Store)
    requires Known(v, c.test) && c.test <= |s|
    ensures c.GoodVal(v, s) && c.Image(v) == v
    decreases v
  {
    match v
    case Atomic(_) =>
    case Tup(elts) =>
      forall i | 0 <= i < |elts| ensures c.GoodVal(elts[i], s) && c.Image(elts[i]) == elts[i] {
        KnownIsGood(c, elts[i], s);
      }
      assert c.Images(elts) == elts;
    case Closure(_, _, _, chain) => KnownChainIsGood(c, chain, s);
  }

  /** The frame of a call with a row. */
  function RowFrame(test: Parametrized, r: seq<Expr>): Frame
    requires test.Tabulated() && r in test.rows
  {
    Frame(LocalsOf(test.argnames, test.body), Bind(test.argnames, LiteralValues(r)))
  }

  lemma FreshFrameIsGood(test: Parametrized, r: seq<Expr>, chain: seq<nat>, s: Store)
    requires test.Tabulated() && r in test.rows && InRange(s) && KnownChain(chain, |s|)
    ensures var c := Setting(|s|, RowOf(test.argnames, r));
      var s1 := s + [RowFrame(test, r)];
      c.GoodStore(s1) && c.GoodChain([|s|] + chain, s1)
  {
    var c := Setting(|s|, RowOf(test.argnames, r));
    var s1 := s + [RowFrame(test, r)];
    BindIsRow(test.argnames, r);
    RowIsLiteral(test.argnames, r);
    forall i, x | 0 <= i < |s1| && x in s1[i].vals ensures c.GoodVal(s1[i].vals[x], s1) {
      if i < |s| {
        KnownIsGood(c, s[i].vals[x], s1);
      } else {
        c.LiteralIsGood(c.row[x], s1);
      }
    }
    KnownChainIsGood(c, chain, s1);
    assert ([|s|] + chain)[1..] == chain;
  }

  /** Without the parameters the fresh frame is the frame of the expanded test. */
  lemma FreshFrameImage(test: Parametrized, r: seq<Expr>, s: Store)
    requires test.Tabulated() && r in test.rows && InRange(s)
    requires ReboundAll(test.body) * Names(test.argnames) == {}
    ensures var c := Setting(|s|, RowOf(test.argnames, r));
      c.ImageOfStore(s + [RowFrame(test, r)]) == s + [Frame(LocalsOf([], SubstBody(c.row, test.body)), map[])]
  {
    var c := Setting(|s|, RowOf(test.argnames, r));
    var s1 := s + [RowFrame(test, r)];
    BindIsRow(test.argnames, r);
    RowIsLiteral(test.argnames, r);
    LocalsWithoutParameters(test, c.row);
    forall i | 0 <= i < |s| ensures c.ImageOfFrame(i, s1[i]) == s[i] {
      forall x | x in s[i].vals ensures c.Image(s[i].vals[x]) == s[i].vals[x] {
        KnownIsGood(c, s[i].vals[x], s1);
      }
      assert c.ImageOfFrame(i, s1[i]).vals == s[i].vals;
    }
    assert c.ImageOfFrame(|s|, s1[|s|]).vals == map[];
  }

  lemma LocalsWithoutParameters(test: Parametrized, row: Row)
    requires row.Keys == Names(test.argnames) && forall p <- row :: IsLiteral(row[p])
    requires ReboundAll(test.body) * Names(test.argnames) == {}
    ensures LocalsOf(test.argnames, test.body) - row.Keys == LocalsOf([], SubstBody(row, test.body))
  {
    SubstBodyKeepsLocals(row, test.body);
    AssignedAllIsRebound(test.body);
    NothingShared(ReboundAll(test.body), Names(test.argnames));
    assert Names([]) == {};
  }

  // ----- Results -----

  /** Preservation of meaning, for real calls: when the rebinding check finds nothing, the expanded test
      runs like the test called with the row, for every amount of fuel, in every store whose references
      are in range. */
  lemma ExpandedRunIsRowRun(prims: Prims, fuel: nat, test: Parametrized, r: seq<Expr>, chain: seq<nat>, s: Store)
    requires test.Tabulated() && r in test.rows && InRange(s) && KnownChain(chain, |s|)
    requires ReboundAll(test.body) * Names(test.argnames) == {}
    ensures RunExpanded(prims, fuel, test, r, chain, s) ==
            Setting(|s|, RowOf(test.argnames, r)).ImageOfRun(RunRow(prims, fuel, test, r, chain, s))
  {
    FreshFrameIsGood(test, r, chain, s);
    FreshFrameImage(test, r, s);
    ExpansionPreservesMeaning(prims, fuel, test, r, |s|, chain, s + [RowFrame(test, r)]);
    assert Bind([], []) == map[];
  }

  /** Two runs end the same way for the test runner: both pass, both are out of fuel, or both raise, with
      first-order exceptions to the letter. */
  predicate SameVerdict(a: Outcome<Flow>, b: Outcome<Flow>) {
    match a
    case Ok(_, _) => b.Ok?
    case OutOfFuel => b.OutOfFuel?
    case Raised(x, _) => b.Raised? && (FirstOrder(x) || FirstOrder(b.exc) ==> x == b.exc)
  }

  lemma ExpandedVerdict(prims: Prims, fuel: nat, test: Parametrized, r: seq<Expr>, chain: seq<nat>, s: Store)
    requires test.Tabulated() && r in test.rows && InRange(s) && KnownChain(chain, |s|)
    requires ReboundAll(test.body) * Names(test.argnames) == {}
    ensures SameVerdict(RunRow(prims, fuel, test, r, chain, s), RunExpanded(prims, fuel, test, r, chain, s))
  {
    ExpandedRunIsRowRun(prims, fuel, test, r, chain, s);
    var run := RunRow(prims, fuel, test, r, chain, s);
    if run.Raised? {
      Setting(|s|, RowOf(test.argnames, r)).FirstOrderIsImage(run.exc);
    }
  }

  /** Two rows, of one test or of two, that expand to the same body end the same way wherever they are
      called: reporting them as duplicates is right. */
  lemma SameExpansionSameVerdict(
      prims: Prims, fuel: nat, a: Parametrized, ra: seq<Expr>, b: Parametrized, rb: seq<Expr>, chain: seq<nat>,
      s: Store)
    requires a.Tabulated() && ra in a.rows && ReboundAll(a.body) * Names(a.argnames) == {}
    requires b.Tabulated() && rb in b.rows && ReboundAll(b.body) * Names(b.argnames) == {}
    requires SubstBody(RowOf(a.argnames, ra), a.body) == SubstBody(RowOf(b.argnames, rb), b.body)
    requires InRange(s) && KnownChain(chain, |s|)
    ensures SameVerdict(RunRow(prims, fuel, a, ra, chain, s), RunRow(prims, fuel, b, rb, chain, s))
  {
    ExpandedVerdict(prims, fuel, a, ra, chain, s);
    ExpandedVerdict(prims, fuel, b, rb, chain, s);
  }
}
