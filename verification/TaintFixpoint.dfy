/** Which local variables of a function hold a database handle: the fixpoint of the architecture checker. */
module TaintFixpoint {
  import opened Machine

  datatype Expr = Ident(name: string) | Selector(x: Expr, sel: string) | Call(fun: Expr) | Paren(inner: Expr)
      | OtherExpr

  /** The values of one `var` specification. */
  datatype Spec = Spec(names: seq<string>, values: seq<Expr>)

  datatype Stmt = Assign(lhs: seq<Expr>, rhs: seq<Expr>) | Declare(specs: seq<Spec>)

  // ----- rootedness

  function Lower(c: char): char { if 'A' <= c <= 'Z' then c - 'A' + 'a' else c }

  predicate EndsInRepo(s: string) {
    var n := |s|;
    n >= 4 && Lower(s[n - 4]) == 'r' && Lower(s[n - 3]) == 'e' && Lower(s[n - 2]) == 'p' && Lower(s[n - 1]) == 'o'
  }

  predicate ChainRootedAt(e: Expr, owner: string) {
    match e
    case Ident(name) => owner != "" && name == owner
    case Selector(x, _) => ChainRootedAt(x, owner)
    case Paren(inner) => ChainRootedAt(inner, owner)
    case _ => false
  }

  predicate IsRepository(e: Expr, owner: string) {
    e.Selector? && EndsInRepo(e.sel) && ChainRootedAt(e.x, owner)
  }

  /** Whether an expression denotes the owner's database or one derived from a known variable. */
  predicate Rooted(e: Expr, owner: string, databases: set<string>) {
    match e
    case Ident(name) => name in databases
    case Selector(x, sel) => ((sel == "db" || sel == "DB") && ChainRootedAt(x, owner)) || Rooted(x, owner, databases)
    case Call(fun) =>
      fun.Selector? && (((fun.sel == "DB" || fun.sel == "dbConn") && IsRepository(fun.x, owner))
                        || Rooted(fun.x, owner, databases))
    case Paren(inner) => Rooted(inner, owner, databases)
    case OtherExpr => false
  }

  /** The expressions a chain of selectors, parentheses and method calls goes through, from the outside in. A call of
      anything but a method ends the chain. */
  function Reached(e: Expr): seq<Expr> {
    match e
    case Selector(x, _) => [e] + Reached(x)
    case Paren(inner) => [e] + Reached(inner)
    case Call(fun) => if fun.Selector? then [e] + Reached(fun.x) else [e]
    case _ => [e]
  }

  /** The variable a chain of selectors and parentheses starts from. */
  function ChainStart(e: Expr): Option<string> {
    match e
    case Ident(name) => Some(name)
    case Selector(x, _) => ChainStart(x)
    case Paren(inner) => ChainStart(inner)
    case _ => None
  }

  function LowerAll(s: string): string { seq(|s|, i requires 0 <= i < |s| => Lower(s[i])) }

  /** The owner's own expressions: its name, and anything selected from it. */
  predicate OwnedBy(e: Expr, owner: string) { owner != "" && ChainStart(e) == Some(owner) }

  predicate NamedRepo(s: string) { |s| >= 4 && LowerAll(s[|s| - 4..]) == "repo" }

  /** A database by itself: a known variable, the owner's `db` or `DB` field, or `DB()` or `dbConn()` called on a field
      of
      the owner whose name ends in `repo`, in any case. */
  predicate IsDatabase(e: Expr, owner: string, databases: set<string>) {
    || (e.Ident? && e.name in databases)
    || (e.Selector? && e.sel in {"db", "DB"} && OwnedBy(e.x, owner))
    || (e.Call? && e.fun.Selector? && e.fun.sel in {"DB", "dbConn"}
        && e.fun.x.Selector? && NamedRepo(e.fun.x.sel) && OwnedBy(e.fun.x.x, owner))
  }

  lemma {:induction false} ChainStarts(e: Expr, owner: string)
    ensures ChainRootedAt(e, owner) <==> OwnedBy(e, owner)
  {
    match e
    case Selector(x, _) => ChainStarts(x, owner);
    case Paren(inner) => ChainStarts(inner, owner);
    case _ =>
  }

  lemma RepoNames(s: string)
    ensures EndsInRepo(s) <==> NamedRepo(s)
  {
    if |s| >= 4 {
      var tail := LowerAll(s[|s| - 4..]);
      assert tail == [Lower(s[|s| - 4]), Lower(s[|s| - 3]), Lower(s[|s| - 2]), Lower(s[|s| - 1])];
      assert tail == "repo" <==> tail[0] == 'r' && tail[1] == 'e' && tail[2] == 'p' && tail[3] == 'o';
    }
  }

  lemma HeadOrTail(head: Expr, tail: seq<Expr>)
    ensures forall x :: x in [head] + tail <==> x == head || x in tail
  {
  }

  /** An expression is rooted exactly when its chain goes through a database. */
  lemma {:induction false} RootedExactly(e: Expr, owner: string, databases: set<string>)
    ensures Rooted(e, owner, databases) <==> exists x :: x in Reached(e) && IsDatabase(x, owner, databases)
  {
    assert e in Reached(e);
    match e
    case Ident(_) =>
    case Selector(x, _) =>
      RootedExactly(x, owner, databases);
      ChainStarts(x, owner);
      HeadOrTail(e, Reached(x));
    case Call(fun) =>
      if fun.Selector? {
        RootedExactly(fun.x, owner, databases);
        HeadOrTail(e, Reached(fun.x));
        if fun.x.Selector? {
          ChainStarts(fun.x.x, owner);
          RepoNames(fun.x.sel);
        }
      }
    case Paren(inner) =>
      RootedExactly(inner, owner, databases);
      HeadOrTail(e, Reached(inner));
    case OtherExpr =>
  }

  /** Rootedness splits: an owner part that ignores the variables, and a variable part that ignores the owner. */
  lemma {:induction false} RootedSplits(e: Expr, owner: string, databases: set<string>)
    ensures Rooted(e, owner, databases) <==> Rooted(e, owner, {}) || Rooted(e, "", databases)
  {
    match e
    case Ident(_) =>
    case Selector(x, _) => NoOwner(x); RootedSplits(x, owner, databases);
    case Call(fun) =>
      if fun.Selector? {
        if fun.x.Selector? { NoOwner(fun.x.x); }
        RootedSplits(fun.x, owner, databases);
      }
    case Paren(inner) => RootedSplits(inner, owner, databases);
    case OtherExpr =>
  }

  lemma {:induction false} NoOwner(e: Expr)
    ensures !ChainRootedAt(e, "")
  {
    match e
    case Selector(x, _) => NoOwner(x);
    case Paren(inner) => NoOwner(inner);
    case _ =>
  }

  lemma {:induction false} RootedGrows(e: Expr, owner: string, small: set<string>, large: set<string>)
    requires small <= large && Rooted(e, owner, small)
    ensures Rooted(e, owner, large)
  {
    match e
    case Ident(_) =>
    case Selector(x, _) => if Rooted(x, owner, small) { RootedGrows(x, owner, small, large); }
    case Call(fun) => if Rooted(fun.x, owner, small) { RootedGrows(fun.x, owner, small, large); }
    case Paren(inner) => RootedGrows(inner, owner, small, large);
  }

  // ----- closure

  predicate ValueClosed(name: string, from: Expr, owner: string, databases: set<string>) {
    Rooted(from, owner, databases) ==> name in databases
  }

  predicate AssignClosed(lhs: seq<Expr>, rhs: seq<Expr>, owner: string, databases: set<string>, n: nat)
    requires n <= |rhs|
  {
    forall i :: 0 <= i < n && i < |lhs| && lhs[i].Ident? ==> ValueClosed(lhs[i].name, rhs[i], owner, databases)
  }

  predicate SpecClosed(spec: Spec, owner: string, databases: set<string>, n: nat)
    requires n <= |spec.values|
  {
    forall i :: 0 <= i < n && i < |spec.names| ==> ValueClosed(spec.names[i], spec.values[i], owner, databases)
  }

  predicate StmtClosed(s: Stmt, owner: string, databases: set<string>) {
    match s
    case Assign(lhs, rhs) => AssignClosed(lhs, rhs, owner, databases, |rhs|)
    case Declare(specs) => forall k :: 0 <= k < |specs| ==> SpecClosed(specs[k], owner, databases, |specs[k].values|)
  }

  /** Every variable assigned from a rooted expression is in the set. */
  predicate Closed(body: seq<Stmt>, owner: string, databases: set<string>) {
    forall i :: 0 <= i < |body| ==> StmtClosed(body[i], owner, databases)
  }

  /** The smallest closed set that contains the seeds. */
  ghost predicate IsLeast(body: seq<Stmt>, owner: string, seeds: set<string>, r: set<string>) {
    && seeds <= r && Closed(body, owner, r)
    && forall other: set<string> :: seeds <= other && Closed(body, owner, other) ==> r <= other
  }

  /** Visiting the statements in another order gives the same set. */
  lemma LeastIgnoresOrder(body: seq<Stmt>, shuffled: seq<Stmt>, owner: string, seeds: set<string>, r: set<string>,
                          s: set<string>)
    requires forall x :: x in body <==> x in shuffled
    requires IsLeast(body, owner, seeds, r) && IsLeast(shuffled, owner, seeds, s)
    ensures r == s
  {
    assert forall other: set<string> :: Closed(body, owner, other) <==> Closed(shuffled, owner, other) by {
      forall other: set<string> ensures Closed(body, owner, other) <==> Closed(shuffled, owner, other) {
        SameStatements(body, shuffled, owner, other);
        SameStatements(shuffled, body, owner, other);
      }
    }
  }

  lemma SameStatements(body: seq<Stmt>, shuffled: seq<Stmt>, owner: string, databases: set<string>)
    requires forall x :: x in shuffled ==> x in body
    ensures Closed(body, owner, databases) ==> Closed(shuffled, owner, databases)
  {
    if Closed(body, owner, databases) {
      forall i | 0 <= i < |shuffled| ensures StmtClosed(shuffled[i], owner, databases) {
        assert shuffled[i] in body;
        var k :| 0 <= k < |body| && body[k] == shuffled[i];
      }
    }
  }

  // ----- several owners

  /** Closed under assignment from an expression rooted at any of the owners. */
  predicate JointlyClosed(body: seq<Stmt>, owners: set<string>, databases: set<string>) {
    forall owner :: owner in owners ==> Closed(body, owner, databases)
  }

  ghost predicate IsJointLeast(body: seq<Stmt>, owners: set<string>, seeds: set<string>, r: set<string>) {
    && seeds <= r && JointlyClosed(body, owners, r)
    && forall other: set<string> :: seeds <= other && JointlyClosed(body, owners, other) ==> r <= other
  }

  lemma ValueStaysClosed(name: string, from: Expr, owner: string, next: string, small: set<string>, large: set<string>)
    requires small <= large && ValueClosed(name, from, owner, small) && ValueClosed(name, from, next, large)
    ensures ValueClosed(name, from, owner, large)
  {
    RootedSplits(from, owner, large);
    RootedSplits(from, next, large);
    RootedSplits(from, owner, small);
  }

  /** What is closed for one owner stays closed for it after closing under another. */
  lemma ClosedStays(body: seq<Stmt>, owner: string, next: string, small: set<string>, large: set<string>)
    requires small <= large && Closed(body, owner, small) && Closed(body, next, large)
    ensures Closed(body, owner, large)
  {
    forall i | 0 <= i < |body| ensures StmtClosed(body[i], owner, large) {
      assert StmtClosed(body[i], owner, small) && StmtClosed(body[i], next, large);
      match body[i]
      case Assign(lhs, rhs) =>
        forall k | 0 <= k < |rhs| && k < |lhs| && lhs[k].Ident? ensures ValueClosed(lhs[k].name, rhs[k], owner, large) {
          ValueStaysClosed(lhs[k].name, rhs[k], owner, next, small, large);
        }
      case Declare(specs) =>
        forall m | 0 <= m < |specs| ensures SpecClosed(specs[m], owner, large, |specs[m].values|) {
          assert SpecClosed(specs[m], owner, small, |specs[m].values|)
                 && SpecClosed(specs[m], next, large, |specs[m].values|);
          forall k | 0 <= k < |specs[m].values| && k < |specs[m].names|
            ensures ValueClosed(specs[m].names[k], specs[m].values[k], owner, large)
          {
            ValueStaysClosed(specs[m].names[k], specs[m].values[k], owner, next, small, large);
          }
        }
    }
  }

  /** Closing under one more owner turns the joint closure of some owners into that of all of them. */
  lemma OneMoreOwner(body: seq<Stmt>, owners: set<string>, owner: string, seeds: set<string>, mid: set<string>,
                     r: set<string>)
    requires IsJointLeast(body, owners, seeds, mid) && IsLeast(body, owner, mid, r)
    ensures IsJointLeast(body, owners + {owner}, seeds, r)
  {
    forall o | o in owners + {owner} ensures Closed(body, o, r) {
      if o in owners { ClosedStays(body, o, owner, mid, r); }
    }
    forall other: set<string> | seeds <= other && JointlyClosed(body, owners + {owner}, other) ensures r <= other {
      assert JointlyClosed(body, owners, other) && Closed(body, owner, other);
    }
  }

  // ----- the collector

  /** All names a function body assigns or declares. */
  function Targets(s: Stmt): set<string> {
    match s
    case Assign(lhs, _) => set e | e in lhs && e.Ident? :: e.name
    case Declare(specs) => set spec, name | spec in specs && name in spec.names :: name
  }

  function AllTargets(body: seq<Stmt>): set<string> {
    set s, name | s in body && name in Targets(s) :: name
  }

  /** Nothing beyond what every closed set with these seeds contains. */
  ghost predicate Below(body: seq<Stmt>, owner: string, seeds: set<string>, r: set<string>) {
    forall other: set<string> :: seeds <= other && Closed(body, owner, other) ==> r <= other
  }

  /** The body assigns `from` to `name` somewhere. */
  predicate Assigns(s: Stmt, name: string, from: Expr) {
    match s
    case Assign(lhs, rhs) => exists i :: 0 <= i < |rhs| && i < |lhs| && lhs[i] == Ident(name) && rhs[i] == from
    case Declare(specs) => exists k, i :: 0 <= k < |specs| && 0 <= i < |specs[k].values| && i < |specs[k].names|
                                          && specs[k].names[i] == name && specs[k].values[i] == from
  }

  lemma AssignsIsClosed(s: Stmt, name: string, from: Expr, owner: string, databases: set<string>)
    requires Assigns(s, name, from) && StmtClosed(s, owner, databases)
    ensures ValueClosed(name, from, owner, databases)
  {
    match s
    case Assign(lhs, rhs) =>
      var i :| 0 <= i < |rhs| && i < |lhs| && lhs[i] == Ident(name) && rhs[i] == from;
      assert ValueClosed(lhs[i].name, rhs[i], owner, databases);
    case Declare(specs) =>
      var k, i :| 0 <= k < |specs| && 0 <= i < |specs[k].values| && i < |specs[k].names| && specs[k].names[i] == name
          && specs[k].values[i] == from;
      assert SpecClosed(specs[k], owner, databases, |specs[k].values|);
      assert ValueClosed(specs[k].names[i], specs[k].values[i], owner, databases);
  }

  lemma ClosedIsAssigns(s: Stmt, owner: string, databases: set<string>)
    requires forall name, from :: Assigns(s, name, from) && Rooted(from, owner, databases) ==> name in databases
    ensures StmtClosed(s, owner, databases)
  {
    match s
    case Assign(lhs, rhs) =>
      forall i | 0 <= i < |rhs| && i < |lhs| && lhs[i].Ident? ensures ValueClosed(lhs[i].name, rhs[i], owner, databases)
      {
        assert Assigns(s, lhs[i].name, rhs[i]);
      }
    case Declare(specs) =>
      forall k | 0 <= k < |specs| ensures SpecClosed(specs[k], owner, databases, |specs[k].values|) {
        forall i | 0 <= i < |specs[k].values| && i < |specs[k].names|
          ensures ValueClosed(specs[k].names[i], specs[k].values[i], owner, databases)
        {
          assert Assigns(s, specs[k].names[i], specs[k].values[i]);
        }
      }
  }

  // ----- what the least set is

  function Names(path: seq<string>): set<string> { set x | x in path }

  /** A derivation step: somewhere the body assigns to `name` an expression whose chain goes through a database. */
  ghost predicate DerivesOne(body: seq<Stmt>, owner: string, name: string, databases: set<string>) {
    exists s, from, x :: s in body && Assigns(s, name, from) && x in Reached(from) && IsDatabase(x, owner, databases)
  }

  /** Each name of the path is assigned from the owner's databases, a seed or an earlier name of the path. */
  ghost predicate Derivation(body: seq<Stmt>, owner: string, seeds: set<string>, path: seq<string>) {
    forall i :: 0 <= i < |path| ==> DerivesOne(body, owner, path[i], seeds + Names(path[..i]))
  }

  ghost predicate Derivable(body: seq<Stmt>, owner: string, seeds: set<string>, name: string) {
    exists path :: path != [] && path[|path| - 1] == name && Derivation(body, owner, seeds, path)
  }

  lemma DerivationPrefix(body: seq<Stmt>, owner: string, seeds: set<string>, path: seq<string>)
    requires Derivation(body, owner, seeds, path) && path != []
    ensures var n := |path| - 1;
            Derivation(body, owner, seeds, path[..n]) && DerivesOne(body, owner, path[n], seeds + Names(path[..n]))
  {
    hide DerivesOne, Names;
    var n := |path| - 1;
    forall i | 0 <= i < n ensures DerivesOne(body, owner, path[..n][i], seeds + Names(path[..n][..i])) {
      assert path[..n][..i] == path[..i];
    }
  }

  lemma DerivationGrows(body: seq<Stmt>, owner: string, seeds: set<string>, path: seq<string>, name: string)
    requires Derivation(body, owner, seeds, path) && DerivesOne(body, owner, name, seeds + Names(path))
    ensures Derivation(body, owner, seeds, path + [name])
  {
    hide DerivesOne, Names;
    var longer := path + [name];
    forall i | 0 <= i < |longer| ensures DerivesOne(body, owner, longer[i], seeds + Names(longer[..i])) {
      assert longer[..i] == path[..i];
      assert path[..|path|] == path;
    }
  }

  lemma OneStays(body: seq<Stmt>, owner: string, known: set<string>, r: set<string>, name: string)
    requires known <= r && Closed(body, owner, r) && DerivesOne(body, owner, name, known)
    ensures name in r
  {
    var s, from, x :| s in body && Assigns(s, name, from) && x in Reached(from) && IsDatabase(x, owner, known);
    hide Assigns, Reached, IsDatabase, Rooted, StmtClosed;
    RootedExactly(from, owner, known);
    RootedGrows(from, owner, known, r);
    var k :| 0 <= k < |body| && body[k] == s;
    assert StmtClosed(body[k], owner, r);
    AssignsIsClosed(s, name, from, owner, r);
  }

  lemma NamesSnoc(path: seq<string>)
    requires path != []
    ensures Names(path) == Names(path[..|path| - 1]) + {path[|path| - 1]}
  {
    assert path == path[..|path| - 1] + [path[|path| - 1]];
  }

  lemma {:induction false} DerivationStays(body: seq<Stmt>, owner: string, seeds: set<string>, r: set<string>,
                                           path: seq<string>)
    requires seeds <= r && Closed(body, owner, r) && Derivation(body, owner, seeds, path)
    ensures Names(path) <= r
  {
    if path != [] {
      hide Derivation, DerivesOne, Closed;
      var n := |path| - 1;
      DerivationPrefix(body, owner, seeds, path);
      DerivationStays(body, owner, seeds, r, path[..n]);
      OneStays(body, owner, seeds + Names(path[..n]), r, path[n]);
      NamesSnoc(path);
    }
  }

  lemma StillDatabase(x: Expr, owner: string, known: set<string>, others: set<string>)
    requires IsDatabase(x, owner, known) && (x.Ident? ==> x.name in others)
    ensures IsDatabase(x, owner, others)
  {
  }

  lemma PathTo(body: seq<Stmt>, owner: string, seeds: set<string>, name: string) returns (path: seq<string>)
    requires name in seeds || Derivable(body, owner, seeds, name)
    ensures Derivation(body, owner, seeds, path) && name in seeds + Names(path)
  {
    hide Derivation;
    if name in seeds {
      path := [];
      NoDerivation(body, owner, seeds);
    } else {
      path :| path != [] && path[|path| - 1] == name && Derivation(body, owner, seeds, path);
    }
  }

  lemma PathEnds(body: seq<Stmt>, owner: string, seeds: set<string>, path: seq<string>, name: string)
    requires Derivation(body, owner, seeds, path + [name])
    ensures Derivable(body, owner, seeds, name)
  {
    hide Derivation;
    var longer := path + [name];
    assert longer != [] && longer[|longer| - 1] == name;
  }

  /** One assignment from a seed, from the owner, or from a derivable name gives a derivable name. */
  lemma DerivesNext(body: seq<Stmt>, owner: string, seeds: set<string>, known: set<string>, s: Stmt, name: string,
                    from: Expr, x: Expr)
    requires s in body && Assigns(s, name, from) && x in Reached(from) && IsDatabase(x, owner, known)
    requires x.Ident? ==> x.name in seeds || Derivable(body, owner, seeds, x.name)
    ensures Derivable(body, owner, seeds, name)
  {
    hide Assigns, Reached, IsDatabase, Derivation, Derivable, Names;
    var path: seq<string> := [];
    if x.Ident? { path := PathTo(body, owner, seeds, x.name); } else { NoDerivation(body, owner, seeds); }
    StillDatabase(x, owner, known, seeds + Names(path));
    assert DerivesOne(body, owner, name, seeds + Names(path));
    DerivationGrows(body, owner, seeds, path, name);
    PathEnds(body, owner, seeds, path, name);
  }

  lemma NoDerivation(body: seq<Stmt>, owner: string, seeds: set<string>)
    ensures Derivation(body, owner, seeds, [])
  {
  }

  /** The least closed set is exactly what can be derived: the seeds, and every variable at the end of a sequence of
      assignments, each from the owner's database, a seed, or a variable earlier in the sequence. */
  lemma LeastIsDerivable(body: seq<Stmt>, owner: string, seeds: set<string>, r: set<string>, name: string)
    requires IsLeast(body, owner, seeds, r)
    ensures name in r <==> name in seeds || Derivable(body, owner, seeds, name)
  {
    if Derivable(body, owner, seeds, name) {
      var path :| path != [] && path[|path| - 1] == name && Derivation(body, owner, seeds, path);
      DerivationStays(body, owner, seeds, r, path);
      assert name in Names(path);
    }
    ghost var known := set y | y in r && (y in seeds || Derivable(body, owner, seeds, y));
    forall k | 0 <= k < |body| ensures StmtClosed(body[k], owner, known) {
      forall target, from | Assigns(body[k], target, from) && Rooted(from, owner, known) ensures target in known {
        RootedGrows(from, owner, known, r);
        assert StmtClosed(body[k], owner, r);
        AssignsIsClosed(body[k], target, from, owner, r);
        RootedExactly(from, owner, known);
        var x :| x in Reached(from) && IsDatabase(x, owner, known);
        assert x.Ident? ==> x.name in known;
        DerivesNext(body, owner, seeds, known, body[k], target, from, x);
      }
      ClosedIsAssigns(body[k], owner, known);
    }
    assert seeds <= known && Closed(body, owner, known);
  }

  lemma BelowGrows(body: seq<Stmt>, owner: string, seeds: set<string>, r: set<string>, s: Stmt, name: string,
                   from: Expr)
    requires Below(body, owner, seeds, r) && s in body && Assigns(s, name, from) && Rooted(from, owner, r)
    ensures Below(body, owner, seeds, r + {name}) && name in AllTargets(body)
  {
    forall other: set<string> | seeds <= other && Closed(body, owner, other) ensures r + {name} <= other {
      var k :| 0 <= k < |body| && body[k] == s;
      assert StmtClosed(body[k], owner, other);
      AssignsIsClosed(s, name, from, owner, other);
      RootedGrows(from, owner, r, other);
    }
    AssignedIsTarget(s, name, from);
  }

  lemma AssignedIsTarget(s: Stmt, name: string, from: Expr)
    requires Assigns(s, name, from)
    ensures name in Targets(s)
  {
    match s
    case Assign(lhs, _) => assert Ident(name) in lhs;
    case Declare(specs) =>
      var k, i :| 0 <= k < |specs| && 0 <= i < |specs[k].values| && i < |specs[k].names| && specs[k].names[i] == name
          && specs[k].values[i] == from;
      assert specs[k] in specs && name in specs[k].names;
  }

  class Collector {
    var databases: set<string>

    constructor (seeds: set<string>)
      ensures databases == seeds
    {
      databases := seeds;
    }

    /** Records one assigned variable; reports whether the set grew. */
    method Derive(ghost body: seq<Stmt>, ghost seeds: set<string>, ghost s: Stmt, name: string, from: Expr,
                  owner: string) returns (grew: bool)
      requires s in body && Assigns(s, name, from) && Below(body, owner, seeds, databases)
      modifies this
      ensures Below(body, owner, seeds, databases)
      ensures if grew then name !in old(databases) && databases == old(databases) + {name} && name in AllTargets(body)
              else databases == old(databases) && ValueClosed(name, from, owner, databases)
    {
      grew := false;
      if Rooted(from, owner, databases) {
        BelowGrows(body, owner, seeds, databases, s, name, from);
        if name !in databases {
          databases := databases + {name};
          grew := true;
        }
      }
    }

    method VisitAssign(ghost body: seq<Stmt>, ghost seeds: set<string>, lhs: seq<Expr>, rhs: seq<Expr>, owner: string)
      returns (changed: bool)
      requires Assign(lhs, rhs) in body && Below(body, owner, seeds, databases)
      modifies this
      ensures Below(body, owner, seeds, databases) && old(databases) <= databases <= old(databases) + AllTargets(body)
      ensures if changed then old(databases) != databases
              else old(databases) == databases && StmtClosed(Assign(lhs, rhs), owner, databases)
    {
      changed := false;
      for index := 0 to |rhs|
        invariant Below(body, owner, seeds, databases)
                  && old(databases) <= databases <= old(databases) + AllTargets(body)
        invariant if changed then old(databases) != databases
                  else old(databases) == databases && AssignClosed(lhs, rhs, owner, databases, index)
      {
        if index < |lhs| && lhs[index].Ident? {
          assert Assigns(Assign(lhs, rhs), lhs[index].name, rhs[index]);
          var grew := Derive(body, seeds, Assign(lhs, rhs), lhs[index].name, rhs[index], owner);
          changed := changed || grew;
        }
      }
    }

    method VisitSpec(ghost body: seq<Stmt>, ghost seeds: set<string>, specs: seq<Spec>, k: nat, owner: string)
      returns (changed: bool)
      requires k < |specs| && Declare(specs) in body && Below(body, owner, seeds, databases)
      modifies this
      ensures Below(body, owner, seeds, databases) && old(databases) <= databases <= old(databases) + AllTargets(body)
      ensures if changed then old(databases) != databases
              else old(databases) == databases && SpecClosed(specs[k], owner, databases, |specs[k].values|)
    {
      changed := false;
      var value := specs[k];
      for index := 0 to |value.values|
        invariant Below(body, owner, seeds, databases)
                  && old(databases) <= databases <= old(databases) + AllTargets(body)
        invariant if changed then old(databases) != databases
                  else old(databases) == databases && SpecClosed(value, owner, databases, index)
      {
        if index < |value.names| {
          assert Assigns(Declare(specs), value.names[index], value.values[index]) by {
            assert specs[k].names[index] == value.names[index] && specs[k].values[index] == value.values[index];
          }
          var grew := Derive(body, seeds, Declare(specs), value.names[index], value.values[index], owner);
          changed := changed || grew;
        }
      }
    }

    method VisitDeclare(ghost body: seq<Stmt>, ghost seeds: set<string>, specs: seq<Spec>, owner: string)
      returns (changed: bool)
      requires Declare(specs) in body && Below(body, owner, seeds, databases)
      modifies this
      ensures Below(body, owner, seeds, databases) && old(databases) <= databases <= old(databases) + AllTargets(body)
      ensures if changed then old(databases) != databases
              else old(databases) == databases && StmtClosed(Declare(specs), owner, databases)
    {
      changed := false;
      for k := 0 to |specs|
        invariant Below(body, owner, seeds, databases)
                  && old(databases) <= databases <= old(databases) + AllTargets(body)
        invariant if changed then old(databases) != databases
                  else old(databases) == databases && forall m :: 0 <= m < k ==>
                        SpecClosed(specs[m], owner, databases, |specs[m].values|)
      {
        var grew := VisitSpec(body, seeds, specs, k, owner);
        changed := changed || grew;
      }
    }

    /** Visits the whole body again until a pass adds nothing: terminates with the least closed set. */
    method CollectDerived(body: seq<Stmt>, owner: string)
      modifies this
      ensures IsLeast(body, owner, old(databases), databases)
    {
      ghost var seeds := databases;
      var changed := true;
      while changed
        invariant seeds <= databases && Below(body, owner, seeds, databases)
        invariant !changed ==> Closed(body, owner, databases)
        decreases AllTargets(body) - databases, changed
      {
        changed := false;
        ghost var before := databases;
        for i := 0 to |body|
          invariant before <= databases <= before + AllTargets(body) && Below(body, owner, seeds, databases)
          invariant if changed then before != databases
                    else before == databases && forall m :: 0 <= m < i ==> StmtClosed(body[m], owner, databases)
        {
          var grew;
          match body[i] {
            case Assign(lhs, rhs) => grew := VisitAssign(body, seeds, lhs, rhs, owner);
            case Declare(specs) => grew := VisitDeclare(body, seeds, specs, owner);
          }
          changed := changed || grew;
        }
        assert changed ==> AllTargets(body) - databases < AllTargets(body) - before;
      }
    }

    /** First the variables alone, then once per owner, in whatever order the owners come: the joint closure. */
    method CollectForOwners(body: seq<Stmt>, owners: set<string>)
      modifies this
      ensures IsJointLeast(body, owners + {""}, old(databases), databases)
    {
      ghost var seeds := databases;
      CollectDerived(body, "");
      OneMoreOwner(body, {}, "", seeds, seeds, databases);
      var left := owners;
      ghost var done := {""};
      assert {} + {""} == done;
      while left != {}
        invariant left <= owners && done == (owners - left) + {""}
        invariant IsJointLeast(body, done, seeds, databases)
        decreases left
      {
        var owner :| owner in left;
        left := left - {owner};
        ghost var mid := databases;
        CollectDerived(body, owner);
        OneMoreOwner(body, done, owner, seeds, mid, databases);
        done := done + {owner};
      }
      assert done == owners + {""};
    }
  }

  /** No order of owners or statements changes what the checker reports: the joint closure is determined by the set of
      statements and the set of owners. */
  lemma JointLeastIgnoresOrder(body: seq<Stmt>, shuffled: seq<Stmt>, owners: set<string>, seeds: set<string>,
                               r: set<string>, s: set<string>)
    requires forall x :: x in body <==> x in shuffled
    requires IsJointLeast(body, owners, seeds, r) && IsJointLeast(shuffled, owners, seeds, s)
    ensures r == s
  {
    forall owner, other: set<string> ensures Closed(body, owner, other) <==> Closed(shuffled, owner, other) {
      SameStatements(body, shuffled, owner, other);
      SameStatements(shuffled, body, owner, other);
    }
  }
}
