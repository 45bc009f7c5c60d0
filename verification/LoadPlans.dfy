/** When the loading of a file succeeds: a group of files of the fallback database that import each
    other without circles, and what has been loaded of it so far. */
module LoadPlans {
  import opened Options
  import opened DescriptorTables
  import opened BuildStates
  import SymbolLookup
  import SymbolNames

  // ----- A file that has nothing to load -----

  /** The attempt to load the file changes nothing: the database does not have it, it is known to be
      bad, or it is being loaded further up. */
  ghost predicate CannotLoad(db: Option<Database>, name: string, loaded: set<string>, pending: seq<string>, bad: set<string>) {
    || db.None? || name in bad || db.value.byName(name).None?
    || var found := db.value.byName(name).value.name; found in bad || (found in Elements(pending) && found !in loaded)
  }

  /** Every import of the file is loaded already, or cannot be. */
  ghost predicate NothingToLoad(db: Option<Database>, proto: FileProto, loaded: set<string>, pending: seq<string>, bad: set<string>) {
    forall i :: 0 <= i < |proto.dependencies| ==>
      proto.dependencies[i] in loaded || CannotLoad(db, proto.dependencies[i], loaded, pending + [proto.name], bad)
  }

  // ----- A group of files -----

  /** The members are to be loaded on the tables start; an import has a lower rank than its importer. */
  datatype Plan = Plan(db: Database, enforce: bool, start: State, members: set<string>, rank: string -> nat)

  /** What the caller of a loading method knows to happen: anything, that nothing is loaded, that the
      tables of before decide, or that it goes by a plan. */
  datatype Outlook = Anything | Nothing | Decided | Planned(plan: Plan)

  /** What is expected of the imports then. */
  function OfImport(outlook: Outlook): Outlook {
    match outlook
    case Anything => Anything
    case Nothing => Anything
    case Decided => Nothing
    case Planned(plan) => Planned(plan)
  }

  /** The symbol is one that the file declares: a package that the file is in, or a symbol of its own. */
  ghost predicate DeclaredBy(proto: FileProto, x: string, symbol: Symbol) {
    || (symbol == Symbol(SymbolLookup.PACKAGE, proto.name) && SymbolNames.IsSubSymbol(x, proto.package))
    || (symbol == SymbolOf(proto, x) && Listed(proto.symbols, |proto.symbols|, x))
  }

  /** The file was not there at the start and is as the database has it. */
  ghost predicate IsNewMember(plan: Plan, t: State, f: string) {
    && f in t.files && f !in plan.start.files && f in plan.members && plan.db.byName(f).Some?
    && plan.db.byName(f).value.name == f && t.files[f].value == Descriptor(plan.db.byName(f).value)
  }

  ghost predicate IsNewSymbol(plan: Plan, t: State, x: string)
    requires x in t.symbols
  {
    var f := t.symbols[x].value.file;
    IsNewMember(plan, t, f) && DeclaredBy(plan.db.byName(f).value, x, t.symbols[x].value)
  }

  /** The tables have become t by loading members only. */
  ghost predicate Comes(plan: Plan, t: State) {
    && Grown(plan.start, t)
    && (forall f {:trigger IsNewMember(plan, t, f)} :: f in t.files && f !in plan.start.files ==> IsNewMember(plan, t, f))
    && (forall x {:trigger IsNewSymbol(plan, t, x)} :: x in t.symbols && x !in plan.start.symbols ==> IsNewSymbol(plan, t, x))
  }

  ghost predicate ImportsLoaded(t: State, proto: FileProto) {
    forall i :: 0 <= i < |proto.dependencies| ==> proto.dependencies[i] in t.files
  }

  /** The file can be built on whatever tables hold its imports and members only, and it asks the
      database for nothing but them and itself. */
  ghost predicate CanBeBuilt(plan: Plan, proto: FileProto) {
    forall t {:trigger CanBuildOn(plan, proto, t)} :: CanBuildOn(plan, proto, t)
  }

  ghost predicate CanBuildOn(plan: Plan, proto: FileProto, t: State) {
    Comes(plan, t) && proto.name !in t.files && ImportsLoaded(t, proto) ==>
      CanBuild(t.symbols, t.files, proto, plan.enforce) && QuietFile(Some(plan.db), t.files.Keys + {proto.name}, proto)
  }

  /** An import was there at the start or is a member of lower rank: there are no circles. */
  ghost predicate ImportOk(plan: Plan, m: string, d: string) {
    d in plan.start.files || (d in plan.members && plan.rank(d) < plan.rank(m))
  }

  ghost predicate ImportsOk(plan: Plan, m: string, proto: FileProto) {
    forall i :: 0 <= i < |proto.dependencies| ==> ImportOk(plan, m, proto.dependencies[i])
  }

  ghost predicate MemberOk(plan: Plan, m: string) {
    && m !in plan.start.files && plan.db.byName(m).Some? && plan.db.byName(m).value.name == m
    && var proto := plan.db.byName(m).value;
       && ImportsOk(plan, m, proto)
       && (proto.links == [] || (plan.enforce && Settled(plan.start.symbols, plan.start.files, {})))
       && CanBeBuilt(plan, proto)
  }

  ghost predicate MembersOk(plan: Plan) {
    forall m {:trigger MemberOk(plan, m)} :: m in plan.members ==> MemberOk(plan, m)
  }

  /** So far loading has gone as planned, and no member is known to be bad. */
  ghost predicate OnPlan(plan: Plan, db: Option<Database>, enforce: bool, t: State, bad: set<string>) {
    db == Some(plan.db) && enforce == plan.enforce && MembersOk(plan) && Comes(plan, t) && bad !! plan.members
  }

  /** Member n can be loaded now: what is being loaded further up has a higher rank. */
  ghost predicate Ready(plan: Plan, db: Option<Database>, enforce: bool, n: string, t: State, pending: seq<string>, bad: set<string>) {
    && OnPlan(plan, db, enforce, t, bad) && n in plan.members && n !in t.files
    && forall q :: q in Elements(pending) && q in plan.members ==> plan.rank(n) < plan.rank(q)
  }

  /** Member m itself is being loaded, and its imports can be. */
  ghost predicate ReadyForImports(plan: Plan, db: Option<Database>, enforce: bool, m: string, t: State, pending: seq<string>,
                                  bad: set<string>)
  {
    && OnPlan(plan, db, enforce, t, bad) && m in plan.members && m !in t.files
    && forall q :: q in Elements(pending) && q in plan.members ==> plan.rank(m) <= plan.rank(q)
  }

  /** What is new ranks no higher than n, or lower. */
  ghost predicate NewUpTo(plan: Plan, n: string, t: State, t': State) {
    forall f :: f in t'.files && f !in t.files ==> plan.rank(f) <= plan.rank(n)
  }

  ghost predicate NewBelow(plan: Plan, m: string, t: State, t': State) {
    forall f :: f in t'.files && f !in t.files ==> plan.rank(f) < plan.rank(m)
  }

  /** Member n has been loaded. */
  ghost predicate LoadedOnPlan(plan: Plan, n: string, t: State, t': State) {
    Comes(plan, t') && n in t'.files && NewUpTo(plan, n, t, t')
  }

  ghost predicate ImportsOnPlan(plan: Plan, m: string, proto: FileProto, n: nat, t: State, t': State)
    requires n <= |proto.dependencies|
  {
    && Comes(plan, t') && NewBelow(plan, m, t, t')
    && forall i :: 0 <= i < n ==> proto.dependencies[i] in t'.files
  }

  lemma ReadyIsMember(plan: Plan, db: Option<Database>, enforce: bool, n: string, t: State, pending: seq<string>, bad: set<string>)
    ensures Ready(plan, db, enforce, n, t, pending, bad) ==>
              db.Some? && n !in bad && db.value.byName(n).Some? && db.value.byName(n).value.name == n
  {
    if Ready(plan, db, enforce, n, t, pending, bad) {
      assert MemberOk(plan, n);
    }
  }

  lemma ReadyIsNotPending(plan: Plan, db: Option<Database>, enforce: bool, n: string, t: State, pending: seq<string>, bad: set<string>)
    ensures n in Elements(pending) ==> !Ready(plan, db, enforce, n, t, pending, bad)
  {
  }

  lemma LoadedIsMember(plan: Plan, db: Option<Database>, enforce: bool, n: string, t: State, t': State, pending: seq<string>, bad: set<string>)
    requires Ready(plan, db, enforce, n, t, pending, bad) && LoadedOnPlan(plan, n, t, t')
    ensures db.value.byName(n).Some? && t'.files[n].value == Descriptor(db.value.byName(n).value)
  {
    assert MemberOk(plan, n);
    assert IsNewMember(plan, t', n);
  }

  lemma PushedIsReady(plan: Plan, db: Option<Database>, enforce: bool, m: string, t: State, pending: seq<string>, bad: set<string>)
    requires Ready(plan, db, enforce, m, t, pending, bad)
    ensures ReadyForImports(plan, db, enforce, m, t, pending + [m], bad)
  {
    ElementsOfConcat(pending, [m]);
    assert Elements([m]) == {m} by {
      assert [m][0] == m;
    }
  }

  /** The next import is loaded or can be. */
  lemma ImportIsReady(plan: Plan, db: Option<Database>, enforce: bool, m: string, proto: FileProto, i: nat, t: State, t': State,
                      pending: seq<string>, bad: set<string>)
    requires ReadyForImports(plan, db, enforce, m, t, pending, bad) && plan.db.byName(m) == Some(proto)
    requires i < |proto.dependencies| && ImportsOnPlan(plan, m, proto, i, t, t')
    ensures proto.dependencies[i] in t'.files || Ready(plan, db, enforce, proto.dependencies[i], t', pending, bad)
  {
    assert MemberOk(plan, m);
    assert ImportOk(plan, m, proto.dependencies[i]);
  }

  lemma ImportsGrow(plan: Plan, m: string, proto: FileProto, i: nat, next: nat, t: State, t': State, t'': State)
    requires i < |proto.dependencies| && next == i + 1 && ImportsOnPlan(plan, m, proto, i, t, t') && Keeps(t'.files, t''.files)
    requires var d := proto.dependencies[i];
             if d in t'.files then t'' == t' else LoadedOnPlan(plan, d, t', t'') && plan.rank(d) < plan.rank(m)
    ensures ImportsOnPlan(plan, m, proto, next, t, t'')
  {
  }

  lemma RankFalls(plan: Plan, db: Option<Database>, enforce: bool, m: string, proto: FileProto, i: nat, t: State, pending: seq<string>,
                  bad: set<string>)
    requires ReadyForImports(plan, db, enforce, m, t, pending, bad) && plan.db.byName(m) == Some(proto) && i < |proto.dependencies|
    ensures proto.dependencies[i] in plan.start.files || plan.rank(proto.dependencies[i]) < plan.rank(m)
  {
    assert MemberOk(plan, m);
    assert ImportOk(plan, m, proto.dependencies[i]);
  }

  /** Once the imports are there, the member can be built. */
  lemma MemberCanBuild(plan: Plan, db: Option<Database>, enforce: bool, m: string, proto: FileProto, t: State, t': State,
                       pending: seq<string>, bad: set<string>)
    requires Ready(plan, db, enforce, m, t, pending, bad) && plan.db.byName(m) == Some(proto)
    requires ImportsOnPlan(plan, m, proto, |proto.dependencies|, t, t')
    ensures m !in t'.files && CanBuild(t'.symbols, t'.files, proto, enforce) && QuietFile(db, t'.files.Keys + {m}, proto)
    ensures proto.links == [] || (enforce && Settled(t'.symbols, t'.files, {}))
  {
    assert MemberOk(plan, m);
    assert CanBuildOn(plan, proto, t');
  }

  lemma {:induction false} NewParentIsPrefix(symbols: map<string, Keyed<Symbol>>, package: string, x: string)
    requires NewParent(symbols, package, x)
    ensures SymbolNames.IsSubSymbol(x, package) && x !in symbols
    decreases |package|
  {
    if x != package {
      NewParentIsPrefix(symbols, package[..SymbolLookup.LastDot(package)], x);
    }
  }

  /** A member that has been built is as the plan has it. */
  lemma BuiltIsOnPlan(plan: Plan, m: string, proto: FileProto, t: State, t': State)
    requires MembersOk(plan) && Comes(plan, t) && m in plan.members && m !in t.files && plan.db.byName(m) == Some(proto)
    requires Grown(t, t') && Adds(t, t', proto)
    ensures Comes(plan, t') && m in t'.files && forall f :: f in t'.files && f !in t.files ==> f == m
  {
    assert MemberOk(plan, m);
    GrownTransitive(plan.start, t, t');
    assert forall f :: f in Values(t'.files) <==> f in t.files || f == m;
    forall f | f in t'.files && f !in plan.start.files
      ensures IsNewMember(plan, t', f)
    {
      assert Values(t'.files)[f] == FilesAfter(t.files, proto)[f];
      if f != m {
        assert IsNewMember(plan, t, f);
      }
    }
    forall x | x in t'.symbols && x !in plan.start.symbols
      ensures IsNewSymbol(plan, t', x)
    {
      SymbolIsOnPlan(plan, m, proto, t, t', x);
    }
  }

  lemma SymbolIsOnPlan(plan: Plan, m: string, proto: FileProto, t: State, t': State, x: string)
    requires Comes(plan, t) && Adds(t, t', proto) && proto.name == m && Grown(t, t')
    requires x in t'.symbols && x !in plan.start.symbols
    requires forall f :: f in t'.files && f !in plan.start.files ==> IsNewMember(plan, t', f)
    requires m in t'.files && m !in plan.start.files && plan.db.byName(m) == Some(proto)
    ensures IsNewSymbol(plan, t', x)
  {
    assert ValueAt(t'.symbols, x) == SymbolAfter(t.symbols, proto, x);
    if x in t.symbols {
      assert IsNewSymbol(plan, t, x);
      assert IsNewMember(plan, t, t.symbols[x].value.file);
      assert IsNewMember(plan, t', t.symbols[x].value.file);
    } else {
      assert IsNewMember(plan, t', m);
      if proto.package != "" && NewParent(t.symbols, proto.package, x) {
        NewParentIsPrefix(t.symbols, proto.package, x);
      }
    }
  }

  /** Whatever is imported along a chain of members, from a loaded file on, is loaded. */
  lemma {:induction false} ImportsAreLoaded(plan: Plan, t: State, chain: seq<string>)
    requires MembersOk(plan) && Comes(plan, t) && chain != [] && chain[0] in t.files
    requires forall i :: 0 <= i < |chain| - 1 ==>
               chain[i] !in plan.start.files && plan.db.byName(chain[i]).Some? && chain[i + 1] in plan.db.byName(chain[i]).value.dependencies
    ensures chain[|chain| - 1] in t.files
    decreases |chain|
  {
    if |chain| > 1 {
      assert IsNewMember(plan, t, chain[0]);
      assert FileOk(t, chain[0]);
      assert chain[0 + 1] in t.files[chain[0]].value.dependencies;
      ImportsAreLoaded(plan, t, chain[1..]);
    }
  }

  // ----- Files whose names fit together -----

  /** The name of a symbol of m is free of those of all other members, and of all packages. */
  ghost predicate SymbolFits(plan: Plan, m: string, i: nat)
    requires plan.db.byName(m).Some? && i < |plan.db.byName(m).value.symbols|
  {
    var declared := plan.db.byName(m).value.symbols[i];
    var x := FullName(declared);
    && ValidIdentifier(declared.name) && x !in plan.start.symbols && !Listed(plan.db.byName(m).value.symbols, i, x)
    && forall other :: other in plan.members && plan.db.byName(other).Some? ==>
         var proto := plan.db.byName(other).value;
         !SymbolNames.IsSubSymbol(x, proto.package) && (other != m ==> !Listed(proto.symbols, |proto.symbols|, x))
  }

  /** Each part of the package is an identifier, and what is there of its parents are packages. */
  ghost predicate PackageFits(plan: Plan, package: string) {
    package != "" ==>
      && (forall i :: 0 <= i < |SymbolLookup.Components(package)| ==> ValidIdentifier(SymbolLookup.Components(package)[i]))
      && forall y :: y in plan.start.symbols && SymbolNames.IsSubSymbol(y, package) ==> plan.start.symbols[y].value.IsPackage()
  }

  /** A file without links, with valid lists of imports, whose names fit. */
  ghost predicate NamesFit(plan: Plan, m: string) {
    && plan.db.byName(m).Some? && plan.db.byName(m).value.name == m
    && var proto := plan.db.byName(m).value;
       && proto.links == [] && Distinct(proto.dependencies) && PackageFits(plan, proto.package)
       && (forall i :: 0 <= i < |proto.publicDependencies| ==> 0 <= proto.publicDependencies[i] < |proto.dependencies|)
       && (forall i {:trigger SymbolFits(plan, m, i)} :: 0 <= i < |proto.symbols| ==> SymbolFits(plan, m, i))
  }

  ghost predicate AllNamesFit(plan: Plan) {
    forall m {:trigger NamesFit(plan, m)} :: m in plan.members ==> NamesFit(plan, m)
  }

  lemma NewSymbolBelongs(plan: Plan, t: State, x: string)
    requires Comes(plan, t) && x in t.symbols && x !in plan.start.symbols
    ensures var f := t.symbols[x].value.file;
            f in plan.members && f in t.files && plan.db.byName(f).Some? && DeclaredBy(plan.db.byName(f).value, x, t.symbols[x].value)
  {
    assert IsNewSymbol(plan, t, x);
    assert IsNewMember(plan, t, t.symbols[x].value.file);
  }

  lemma ListedIsNoPrefix(plan: Plan, other: string, m: string, y: string)
    requires AllNamesFit(plan) && m in plan.members && plan.db.byName(m).Some? && other in plan.members && plan.db.byName(other).Some?
    ensures var proto := plan.db.byName(other).value;
            Listed(proto.symbols, |proto.symbols|, y) ==> !SymbolNames.IsSubSymbol(y, plan.db.byName(m).value.package)
  {
    var proto := plan.db.byName(other).value;
    assert NamesFit(plan, other);
    if Listed(proto.symbols, |proto.symbols|, y) {
      var i :| 0 <= i < |proto.symbols| && FullName(proto.symbols[i]) == y;
      assert SymbolFits(plan, other, i);
    }
  }

  lemma PrefixStaysPackage(plan: Plan, t: State, m: string, y: string)
    requires AllNamesFit(plan) && Comes(plan, t) && m in plan.members && NamesFit(plan, m)
    requires y in t.symbols && SymbolNames.IsSubSymbol(y, plan.db.byName(m).value.package) && plan.db.byName(m).value.package != ""
    ensures t.symbols[y].value.IsPackage()
  {
    if y !in plan.start.symbols {
      NewSymbolBelongs(plan, t, y);
      ListedIsNoPrefix(plan, t.symbols[y].value.file, m, y);
    }
  }

  lemma {:induction false} PackageIsOk(symbols: map<string, Keyed<Symbol>>, package: string)
    requires forall i :: 0 <= i < |SymbolLookup.Components(package)| ==> ValidIdentifier(SymbolLookup.Components(package)[i])
    requires forall y :: y in symbols && SymbolNames.IsSubSymbol(y, package) ==> symbols[y].value.IsPackage()
    ensures PackageOk(symbols, package)
    decreases |package|
  {
    var dot, parts := SymbolLookup.LastDot(package), SymbolLookup.Components(package);
    if dot >= 0 {
      var prefix := SymbolLookup.Components(package[..dot]);
      assert parts == prefix + [package[dot + 1..]];
      assert forall i :: 0 <= i < |prefix| ==> prefix[i] == parts[i];
      assert parts[|prefix|] == package[dot + 1..];
      PackageIsOk(symbols, package[..dot]);
    } else {
      assert parts[0] == package;
    }
  }

  lemma SymbolIsGood(plan: Plan, t: State, m: string, i: nat)
    requires AllNamesFit(plan) && Comes(plan, t) && m in plan.members && m !in t.files && NamesFit(plan, m)
    requires i < |plan.db.byName(m).value.symbols|
    ensures var proto := plan.db.byName(m).value; GoodName(t.symbols, proto.package, proto.symbols, i)
  {
    var proto := plan.db.byName(m).value;
    var x := FullName(proto.symbols[i]);
    assert SymbolFits(plan, m, i);
    if x in t.symbols {
      NewSymbolBelongs(plan, t, x);
    }
    if proto.package != "" && NewParent(t.symbols, proto.package, x) {
      NewParentIsPrefix(t.symbols, proto.package, x);
    }
  }

  /** Files without links whose names fit together can be built in any order. */
  lemma FittingCanBeBuilt(plan: Plan, m: string)
    requires AllNamesFit(plan) && m in plan.members && plan.db.byName(m).Some?
    ensures CanBeBuilt(plan, plan.db.byName(m).value)
  {
    assert NamesFit(plan, m);
    var proto := plan.db.byName(m).value;
    forall t
      ensures CanBuildOn(plan, proto, t)
    {
      if Comes(plan, t) && m !in t.files && ImportsLoaded(t, proto) {
        FittingCanBuildOn(plan, m, t);
      }
    }
  }

  lemma FittingCanBuildOn(plan: Plan, m: string, t: State)
    requires AllNamesFit(plan) && m in plan.members && NamesFit(plan, m)
    requires Comes(plan, t) && m !in t.files && ImportsLoaded(t, plan.db.byName(m).value)
    ensures CanBuild(t.symbols, t.files, plan.db.byName(m).value, plan.enforce)
  {
    var proto := plan.db.byName(m).value;
    forall i | 0 <= i < |proto.symbols|
      ensures GoodName(t.symbols, proto.package, proto.symbols, i)
    {
      SymbolIsGood(plan, t, m, i);
    }
    if proto.package != "" {
      forall y | y in t.symbols && SymbolNames.IsSubSymbol(y, proto.package)
        ensures t.symbols[y].value.IsPackage()
      {
        PrefixStaysPackage(plan, t, m, y);
      }
      PackageIsOk(t.symbols, proto.package);
    }
  }

  lemma FittingMembersAreOk(plan: Plan)
    requires AllNamesFit(plan) && forall m :: m in plan.members ==> m !in plan.start.files
    requires forall m :: m in plan.members && plan.db.byName(m).Some? ==> ImportsOk(plan, m, plan.db.byName(m).value)
    ensures MembersOk(plan)
  {
    forall m | m in plan.members
      ensures MemberOk(plan, m)
    {
      assert NamesFit(plan, m);
      FittingCanBeBuilt(plan, m);
    }
  }
}
