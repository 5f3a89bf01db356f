/** Class hierarchies as the test auditor sees them (scripts/audit_tests.py): the two worklist closures
    over visible base classes, and the recursive search for an explicit `__test__` flag. */
module Inheritance {

  datatype Option<+T> = None | Some(value: T)

  /** A base-class expression; `root` is the first component of a dotted name. */
  datatype Base = Name(id: string) | Attribute(root: string, attr: string) | Subscript(of: Base) | Opaque

  /** `flag` is the value `__test__` is given in the class body, if any. */
  datatype ClassDef = ClassDef(name: string, bases: seq<Base>, flag: Option<bool>)

  type ByName = map<string, seq<ClassDef>>

  const UNITTEST_BASES := {"TestCase", "IsolatedAsyncioTestCase"}

  // ----- Reachability along a step relation -----

  /** A derivation of `n` from a seed: each class has the one before it as a base. */
  ghost predicate Derivation(step: (string, string) -> bool, seeds: set<string>, p: seq<string>, n: string) {
    && p != [] && p[0] in seeds && p[|p| - 1] == n
    && forall i | 0 < i < |p| :: step(p[i - 1], p[i])
  }

  ghost predicate Derived(step: (string, string) -> bool, seeds: set<string>, n: string) {
    exists p: seq<string> :: Derivation(step, seeds, p, n)
  }

  lemma SeedIsDerived(step: (string, string) -> bool, seeds: set<string>, n: string)
    requires n in seeds
    ensures Derived(step, seeds, n)
  {
    assert Derivation(step, seeds, [n], n);
  }

  lemma StepIsDerived(step: (string, string) -> bool, seeds: set<string>, a: string, n: string)
    requires Derived(step, seeds, a) && step(a, n)
    ensures Derived(step, seeds, n)
  {
    var p: seq<string> :| Derivation(step, seeds, p, a);
    assert Derivation(step, seeds, p + [n], n);
  }

  /** A set that holds the seeds and is closed under the step relation holds everything derived. */
  lemma {:induction false} ClosedHoldsDerived(
      step: (string, string) -> bool, seeds: set<string>, known: set<string>, p: seq<string>, n: string)
    requires seeds <= known && Derivation(step, seeds, p, n)
    requires forall a, b | a in known && step(a, b) :: b in known
    ensures n in known
  {
    if |p| > 1 {
      var q := p[..|p| - 1];
      ClosedHoldsDerived(step, seeds, known, q, q[|q| - 1]);
      assert step(p[|p| - 2], p[|p| - 1]);
    }
  }

  // ----- The inheritance closure -----

  /** Names of the bases that can be resolved in the module; a generic base counts as its origin. */
  function BaseNames(bases: seq<Base>): seq<string> {
    if bases == [] then []
    else
      var target := if bases[0].Subscript? then bases[0].of else bases[0];
      (if target.Name? then [target.id] else []) + BaseNames(bases[1..])
  }

  /** Bases of all classes of one name, in source order. */
  function BasesOf(nodes: seq<ClassDef>): seq<string> {
    if nodes == [] then [] else BaseNames(nodes[0].bases) + BasesOf(nodes[1..])
  }

  function Inherits(byName: ByName): (string, string) -> bool {
    (a, b) => b in byName && a in BasesOf(byName[b])
  }

  /** The name is written as a base, plain or generic. */
  predicate Written(bases: seq<Base>, name: string) {
    Name(name) in bases || Subscript(Name(name)) in bases
  }

  /** The names are those that are written, in source order. */
  lemma {:induction false} BaseNamesAreWritten(bases: seq<Base>, name: string)
    ensures name in BaseNames(bases) <==> Written(bases, name)
  {
    if bases != [] {
      BaseNamesAreWritten(bases[1..], name);
      assert bases == [bases[0]] + bases[1..];
    }
  }

  lemma {:induction false} BaseNamesInOrder(a: seq<Base>, b: seq<Base>)
    ensures BaseNames(a + b) == BaseNames(a) + BaseNames(b)
  {
    if a == [] {
      assert a + b == b;
    } else {
      assert (a + b)[0] == a[0] && (a + b)[1..] == a[1..] + b;
      BaseNamesInOrder(a[1..], b);
    }
  }

  /** A class inherits from exactly the names that some class of its name is written with. */
  lemma InheritsIffWritten(byName: ByName, a: string, b: string)
    ensures Inherits(byName)(a, b) <==> b in byName && exists node <- byName[b] :: Written(node.bases, a)
  {
    if b in byName { BasesOfAll(byName[b], a); }
  }

  lemma {:induction false} BasesOfAll(nodes: seq<ClassDef>, name: string)
    ensures name in BasesOf(nodes) <==> exists node <- nodes :: Written(node.bases, name)
  {
    if nodes != [] {
      BasesOfAll(nodes[1..], name);
      BaseNamesAreWritten(nodes[0].bases, name);
      assert nodes == [nodes[0]] + nodes[1..];
    }
  }

  /** Seeds and everything that derives from them in the module. */
  method Inherited(byName: ByName, seeds: set<string>) returns (known: set<string>)
    ensures forall n :: n in known <==> Derived(Inherits(byName), seeds, n)
  {
    var step := Inherits(byName);
    known := seeds;
    forall n | n in seeds ensures Derived(step, seeds, n) { SeedIsDerived(step, seeds, n); }
    var changed := true;
    while changed
      invariant seeds <= known && forall n <- known :: Derived(step, seeds, n)
      invariant !changed ==> forall a, b | a in known && step(a, b) :: b in known
      decreases byName.Keys - known, changed
    {
      known, changed := InheritedRound(byName, seeds, known);
    }
    forall n | Derived(step, seeds, n) ensures n in known {
      var p: seq<string> :| Derivation(step, seeds, p, n);
      ClosedHoldsDerived(step, seeds, known, p, n);
    }
  }

  /** One pass over all classes; without a change the set is closed. */
  method InheritedRound(byName: ByName, ghost seeds: set<string>, start: set<string>)
    returns (known: set<string>, changed: bool)
    requires forall n <- start :: Derived(Inherits(byName), seeds, n)
    ensures start <= known && forall n <- known :: Derived(Inherits(byName), seeds, n)
    ensures if changed then byName.Keys - known < byName.Keys - start
            else known == start && forall a, b | a in known && Inherits(byName)(a, b) :: b in known
  {
    var step := Inherits(byName);
    known, changed := start, false;
    var todo := byName.Keys;
    while todo != {}
      invariant todo <= byName.Keys && start <= known
      invariant if changed then byName.Keys - known < byName.Keys - start else known == start
      invariant forall n <- known :: Derived(step, seeds, n)
      invariant !changed ==> forall b <- byName.Keys - todo :: b in known || forall a <- known :: !step(a, b)
      decreases |todo|
    {
      var name :| name in todo;
      todo := todo - {name};
      if name in known { continue; }
      if base :| base in BasesOf(byName[name]) && base in known {
        StepIsDerived(step, seeds, base, name);
        assert name in byName.Keys - start;
        known := known + {name};
        changed := true;
      }
    }
  }

  // ----- The unittest closure -----

  predicate IsUnittestBase(base: Base, known: set<string>, moduleAliases: set<string>) {
    match base
    case Name(id) => id in known
    case Attribute(root, attr) => attr in UNITTEST_BASES && root in moduleAliases
    case _ => false
  }

  /** A class named `n` lists the plain name `a` among its bases. */
  function NamesBase(classes: seq<ClassDef>): (string, string) -> bool {
    (a, n) => exists c <- classes :: c.name == n && Name(a) in c.bases
  }

  predicate DottedTestCase(base: Base, moduleAliases: set<string>) {
    base.Attribute? && base.root in moduleAliases && (base.attr == "TestCase" || base.attr == "IsolatedAsyncioTestCase")
  }

  /** Imported test cases, and classes with a dotted test-case base. */
  ghost function UnittestSeeds(classes: seq<ClassDef>, direct: set<string>, moduleAliases: set<string>): set<string> {
    direct + set c <- classes | exists b <- c.bases :: DottedTestCase(b, moduleAliases) :: c.name
  }

  method ResolveUnittestCases(classes: seq<ClassDef>, direct: set<string>, moduleAliases: set<string>)
    returns (known: set<string>)
    ensures forall n :: n in known <==>
      Derived(NamesBase(classes), UnittestSeeds(classes, direct, moduleAliases), n)
  {
    var step := NamesBase(classes);
    ghost var seeds := UnittestSeeds(classes, direct, moduleAliases);
    ghost var names := set c <- classes :: c.name;
    known := direct;
    forall n | n in seeds ensures Derived(step, seeds, n) { SeedIsDerived(step, seeds, n); }
    var changed := true;
    while changed
      invariant direct <= known && forall n <- known :: Derived(step, seeds, n)
      invariant !changed ==> Settled(classes, known, moduleAliases)
      decreases names - known, changed
    {
      known, changed := UnittestRound(classes, direct, moduleAliases, known);
    }
    forall n | Derived(step, seeds, n) ensures n in known {
      var p: seq<string> :| Derivation(step, seeds, p, n);
      ClosedHoldsDerived(step, seeds, known, p, n);
    }
  }

  ghost predicate Settled(classes: seq<ClassDef>, known: set<string>, moduleAliases: set<string>) {
    forall c <- classes :: c.name in known || forall b <- c.bases :: !IsUnittestBase(b, known, moduleAliases)
  }

  /** One pass over the classes; without a change every class is settled. */
  method UnittestRound(classes: seq<ClassDef>, direct: set<string>, moduleAliases: set<string>, start: set<string>)
    returns (known: set<string>, changed: bool)
    requires forall n <- start :: Derived(NamesBase(classes), UnittestSeeds(classes, direct, moduleAliases), n)
    ensures start <= known
    ensures forall n <- known :: Derived(NamesBase(classes), UnittestSeeds(classes, direct, moduleAliases), n)
    ensures var names := set c <- classes :: c.name;
      if changed then names - known < names - start else known == start && Settled(classes, known, moduleAliases)
  {
    var step := NamesBase(classes);
    ghost var seeds := UnittestSeeds(classes, direct, moduleAliases);
    ghost var names := set c <- classes :: c.name;
    known, changed := start, false;
    for i := 0 to |classes|
      invariant start <= known
      invariant if changed then names - known < names - start else known == start
      invariant forall n <- known :: Derived(step, seeds, n)
      invariant !changed ==> Settled(classes[..i], known, moduleAliases)
    {
      var cls := classes[i];
      assert classes[..i + 1] == classes[..i] + [cls];
      if cls.name in known { continue; }
      if base :| base in cls.bases && IsUnittestBase(base, known, moduleAliases) {
        if base.Name? {
          StepIsDerived(step, seeds, base.id, cls.name);
        } else {
          SeedIsDerived(step, seeds, cls.name);
        }
        assert cls.name in names - start;
        known := known + {cls.name};
        changed := true;
      }
    }
    assert classes[..|classes|] == classes;
  }

  // ----- The explicit collection flag -----

  /** Classes of one name: any opt-out wins over the flags that were written. */
  function MergeFlags(nodes: seq<ClassDef>): Option<bool> {
    if nodes == [] then None
    else
      match (nodes[0].flag, MergeFlags(nodes[1..]))
      case (None, rest) => rest
      case (Some(b), None) => Some(b)
      case (Some(b), Some(c)) => Some(b && c)
  }

  /** Classes of one name together opt out when one of them does, and have a flag when one of them has. */
  lemma {:induction false} MergedFlags(nodes: seq<ClassDef>)
    ensures MergeFlags(nodes) == Some(false) <==> exists node <- nodes :: node.flag == Some(false)
    ensures MergeFlags(nodes).Some? <==> exists node <- nodes :: node.flag.Some?
  {
    if nodes != [] {
      MergedFlags(nodes[1..]);
      assert nodes == [nodes[0]] + nodes[1..];
    }
  }

  /** What is assigned after the class bodies counts before what is written in them. */
  lemma ExplicitFlag(byName: ByName, overrides: map<string, bool>, name: string, flag: bool)
    ensures Explicit(byName, overrides, name) == Some(flag) <==>
      if name in overrides then overrides[name] == flag
      else
        && name in byName && (exists node <- byName[name] :: node.flag.Some?)
        && (!flag <==> exists node <- byName[name] :: node.flag == Some(false))
  {
    if name !in overrides && name in byName {
      MergedFlags(byName[name]);
      var merged := MergeFlags(byName[name]);
      if merged.Some? { assert merged == Some(merged.value) && merged.value in {true, false}; }
    }
  }

  /** The flag a class carries itself: an assignment after the class body wins over the body. */
  function Explicit(byName: ByName, overrides: map<string, bool>, name: string): Option<bool> {
    if name in overrides then Some(overrides[name])
    else if name in byName then MergeFlags(byName[name])
    else None
  }

  /** The first explicit flag along the bases; `seen` are the classes on the way to `name`. */
  function FlagOf(byName: ByName, overrides: map<string, bool>, name: string, seen: set<string>): Option<bool>
    decreases byName.Keys - seen, 0
  {
    var flag := Explicit(byName, overrides, name);
    if flag.Some? || name !in byName || name in seen then flag
    else
      assert name in byName.Keys - seen;
      FirstFlag(byName, overrides, BasesOf(byName[name]), seen + {name})
  }

  function FirstFlag(byName: ByName, overrides: map<string, bool>, bases: seq<string>, seen: set<string>): Option<bool>
    decreases byName.Keys - seen, 1 + |bases|
  {
    if bases == [] then None
    else
      var inherited := FlagOf(byName, overrides, bases[0], seen);
      if inherited.Some? then inherited else FirstFlag(byName, overrides, bases[1..], seen)
  }

  function ResolveOptedOut(byName: ByName, overrides: map<string, bool>): set<string> {
    set name | name in byName && FlagOf(byName, overrides, name, {}) == Some(false)
  }

  /** A way up from `p[0]` through classes without a flag of their own to one that has it. */
  ghost predicate FlagPath(byName: ByName, overrides: map<string, bool>, p: seq<string>) {
    && p != [] && Explicit(byName, overrides, p[|p| - 1]).Some?
    && forall i | 0 <= i < |p| - 1 ::
         && p[i] in byName && Explicit(byName, overrides, p[i]).None? && p[i + 1] in BasesOf(byName[p[i]])
  }

  /** Whatever the hierarchy, cyclic ones included: an answer is the flag of a class on such a way. */
  lemma {:induction false} FlagIsFound(byName: ByName, overrides: map<string, bool>, name: string, seen: set<string>)
    returns (p: seq<string>)
    requires FlagOf(byName, overrides, name, seen).Some?
    ensures FlagPath(byName, overrides, p) && p[0] == name
    ensures Explicit(byName, overrides, p[|p| - 1]) == FlagOf(byName, overrides, name, seen)
    decreases byName.Keys - seen, 0
  {
    if Explicit(byName, overrides, name).Some? {
      p := [name];
    } else {
      assert name in byName.Keys - seen;
      var q := FirstFlagIsFound(byName, overrides, BasesOf(byName[name]), seen + {name});
      p := [name] + q;
      assert forall i | 1 <= i < |p| :: p[i] == q[i - 1];
    }
  }

  lemma {:induction false} FirstFlagIsFound(
      byName: ByName, overrides: map<string, bool>, bases: seq<string>, seen: set<string>)
    returns (p: seq<string>)
    requires FirstFlag(byName, overrides, bases, seen).Some?
    ensures FlagPath(byName, overrides, p) && p[0] in bases
    ensures Explicit(byName, overrides, p[|p| - 1]) == FirstFlag(byName, overrides, bases, seen)
    decreases byName.Keys - seen, 1 + |bases|
  {
    if FlagOf(byName, overrides, bases[0], seen).Some? {
      p := FlagIsFound(byName, overrides, bases[0], seen);
    } else {
      p := FirstFlagIsFound(byName, overrides, bases[1..], seen);
    }
  }

  /** Conversely a way up that avoids the classes already seen is never missed. */
  lemma {:induction false} FlagIsNotMissed(
      byName: ByName, overrides: map<string, bool>, p: seq<string>, seen: set<string>)
    requires FlagPath(byName, overrides, p) && forall i | 0 <= i < |p| - 1 :: p[i] !in seen
    ensures FlagOf(byName, overrides, p[0], seen).Some?
    decreases |p|
  {
    if |p| > 1 {
      if j :| 0 < j < |p| && p[j] == p[0] {
        FlagIsNotMissed(byName, overrides, p[j..], seen);
      } else {
        var q := p[1..];
        assert forall i | 0 <= i < |q| :: q[i] == p[i + 1];
        FlagIsNotMissed(byName, overrides, q, seen + {p[0]});
        FirstFlagTakesAny(byName, overrides, BasesOf(byName[p[0]]), p[1], seen + {p[0]});
      }
    }
  }

  lemma {:induction false} FirstFlagTakesAny(
      byName: ByName, overrides: map<string, bool>, bases: seq<string>, base: string, seen: set<string>)
    requires base in bases && FlagOf(byName, overrides, base, seen).Some?
    ensures FirstFlag(byName, overrides, bases, seen).Some?
    decreases |bases|
  {
    if bases[0] != base && FlagOf(byName, overrides, bases[0], seen).None? {
      FirstFlagTakesAny(byName, overrides, bases[1..], base, seen);
    }
  }

  /** The cut at repeated classes loses nothing: a flag is found exactly when one can be reached. */
  lemma FlagFoundIffReachable(byName: ByName, overrides: map<string, bool>, name: string)
    ensures FlagOf(byName, overrides, name, {}).Some? <==> exists p :: FlagPath(byName, overrides, p) && p[0] == name
  {
    if FlagOf(byName, overrides, name, {}).Some? {
      var p := FlagIsFound(byName, overrides, name, {});
    }
    if exists p :: FlagPath(byName, overrides, p) && p[0] == name {
      var p :| FlagPath(byName, overrides, p) && p[0] == name;
      FlagIsNotMissed(byName, overrides, p, {});
    }
  }

  // ----- Acyclic hierarchies: the first flag in depth-first order -----

  /** `rank` decreases from a class to each of its bases. */
  ghost predicate Acyclic(byName: ByName, rank: string -> nat) {
    forall name, base | name in byName && base in BasesOf(byName[name]) :: rank(base) < rank(name)
  }

  /** All explicit flags met by a depth-first walk that does not go beyond a class with a flag. */
  ghost function DepthFirstFlags(
      byName: ByName, overrides: map<string, bool>, rank: string -> nat, name: string): seq<bool>
    requires Acyclic(byName, rank)
    decreases rank(name), 0
  {
    var flag := Explicit(byName, overrides, name);
    if flag.Some? then [flag.value]
    else if name !in byName then []
    else DepthFirstFlagsOf(byName, overrides, rank, BasesOf(byName[name]), rank(name))
  }

  ghost function DepthFirstFlagsOf(
      byName: ByName, overrides: map<string, bool>, rank: string -> nat, bases: seq<string>, bound: nat): seq<bool>
    requires Acyclic(byName, rank) && forall b <- bases :: rank(b) < bound
    decreases bound, 0, |bases|
  {
    if bases == [] then []
    else
      DepthFirstFlags(byName, overrides, rank, bases[0])
      + DepthFirstFlagsOf(byName, overrides, rank, bases[1..], bound)
  }

  function First(flags: seq<bool>): Option<bool> {
    if flags == [] then None else Some(flags[0])
  }

  lemma {:induction false} FlagIsFirstInDepthFirstOrder(
      byName: ByName, overrides: map<string, bool>, rank: string -> nat, name: string, seen: set<string>)
    requires Acyclic(byName, rank) && forall s <- seen :: rank(name) < rank(s)
    ensures FlagOf(byName, overrides, name, seen) == First(DepthFirstFlags(byName, overrides, rank, name))
    decreases rank(name), 0
  {
    if Explicit(byName, overrides, name).None? && name in byName {
      FirstFlagIsFirst(byName, overrides, rank, BasesOf(byName[name]), rank(name), seen + {name});
    }
  }

  lemma {:induction false} FirstFlagIsFirst(
      byName: ByName, overrides: map<string, bool>, rank: string -> nat, bases: seq<string>, bound: nat,
      seen: set<string>)
    requires Acyclic(byName, rank) && (forall b <- bases :: rank(b) < bound) && forall s <- seen :: bound <= rank(s)
    ensures FirstFlag(byName, overrides, bases, seen) == First(DepthFirstFlagsOf(byName, overrides, rank, bases, bound))
    decreases bound, 0, |bases|
  {
    if bases != [] {
      FlagIsFirstInDepthFirstOrder(byName, overrides, rank, bases[0], seen);
      FirstFlagIsFirst(byName, overrides, rank, bases[1..], bound, seen);
    }
  }

  /** The opted-out classes of any hierarchy: an explicit opt-out is reached through classes without a
      flag, or the class opts out itself. */
  lemma OptedOutHasReason(byName: ByName, overrides: map<string, bool>, name: string) returns (p: seq<string>)
    requires name in ResolveOptedOut(byName, overrides)
    ensures FlagPath(byName, overrides, p) && p[0] == name && Explicit(byName, overrides, p[|p| - 1]) == Some(false)
  {
    p := FlagIsFound(byName, overrides, name, {});
  }

  /** On an acyclic hierarchy a class is opted out exactly when the first flag of the depth-first walk
      is an opt-out. */
  lemma OptedOutIffFirstFlag(byName: ByName, overrides: map<string, bool>, rank: string -> nat, name: string)
    requires Acyclic(byName, rank) && name in byName
    ensures name in ResolveOptedOut(byName, overrides) <==>
            First(DepthFirstFlags(byName, overrides, rank, name)) == Some(false)
  {
    FlagIsFirstInDepthFirstOrder(byName, overrides, rank, name, {});
  }
}
