/** Building files from protos: BuildFile, BuildFileImpl and the fallback database that both of them
    may call back into, with the checkpoint discipline of DescriptorTables. */
module FileBuilding {
  import opened Options
  import opened DescriptorTables
  import opened BuildStates
  import opened LoadPlans
  import PublicDependencies
  import SymbolLookup
  import SymbolNames

  class DescriptorPool {
    const tables: Tables
    const database: Option<Database>
    const enforceDependencies: bool
    const existingFileMatches: (FileDescriptor, FileProto) -> bool

    constructor (database: Option<Database>, enforceDependencies: bool, existingFileMatches: (FileDescriptor, FileProto) -> bool)
      ensures this.database == database && this.enforceDependencies == enforceDependencies
      ensures this.existingFileMatches == existingFileMatches
      ensures fresh(tables) && KeysLive(tables.View()) && AllFilesOk(tables.View())
      ensures tables.View() == State(map[], map[], map[], [], 0, 0, 0, [], [], [], []) && tables.pendingFiles == []
      ensures Settled(tables.symbolsByName, tables.filesByName, {})
    {
      this.database, this.enforceDependencies, this.existingFileMatches := database, enforceDependencies, existingFileMatches;
      tables := new Tables();
    }

    /** An otherwise unremarkable file of the database whose one import is itself. */
    ghost predicate SelfImport(proto: FileProto) {
      && Plain(proto) && proto.dependencies == [proto.name]
      && database.Some? && database.value.byName(proto.name) == Some(proto)
    }

    /** Whether the file is built can be told from the tables: its name is free, it is not being loaded,
        nothing of what it imports is still to be loaded, and what its links find is foreseeable. */
    ghost predicate IsDecided(proto: FileProto, t: State, pending: seq<string>, bad: set<string>) {
      && proto.name !in t.files && proto.name !in Elements(pending)
      && NothingToLoad(database, proto, t.files.Keys, pending, bad) && ForeseeableBuild(t, proto, {})
    }

    /** The one circle of imports that gets through is that of length one: the file is in the tables
        before its own imports are looked up there. */
    lemma SelfImportIsBuilt(proto: FileProto, t: State, pending: seq<string>, bad: set<string>)
      requires SelfImport(proto) && proto.name !in t.files && proto.name !in Elements(pending)
      ensures IsDecided(proto, t, pending, bad) && CanBuild(t.symbols, t.files, proto, enforceDependencies)
    {
      PushedIsPending(pending, proto.name);
    }

    /** What the database has for the name can be decided on, and neither name is known to be bad. */
    ghost predicate AnswerIsDecided(name: string, t: State, pending: seq<string>, bad: set<string>) {
      && database.Some? && database.value.byName(name).Some? && name !in bad
      && var proto := database.value.byName(name).value; proto.name !in bad && IsDecided(proto, t, pending, bad)
    }

    /** The file was built as its proto has it, exactly if it can be; otherwise nothing has changed. */
    ghost predicate BuiltIff(built: bool, proto: FileProto, t: State)
      reads tables
    {
      && (built <==> CanBuild(t.symbols, t.files, proto, enforceDependencies))
      && (built ==> proto.name in tables.filesByName && tables.filesByName[proto.name].value == Descriptor(proto))
      && (built && QuietFile(database, t.files.Keys + {proto.name}, proto) ==> Adds(t, tables.View(), proto))
      && (!built ==> tables.View() == t)
    }

    /** What can be expected of an attempt to load the file of that name. */
    ghost predicate CanExpect(outlook: Outlook, name: string, t: State, pending: seq<string>, bad: set<string>) {
      match outlook
      case Anything => true
      case Nothing => CannotLoad(database, name, t.files.Keys, pending, bad)
      case Decided => AnswerIsDecided(name, t, pending, bad)
      case Planned(plan) => Ready(plan, database, enforceDependencies, name, t, pending, bad)
    }

    /** The same of building the file of the proto. */
    ghost predicate CanExpectOf(outlook: Outlook, proto: FileProto, t: State, pending: seq<string>, bad: set<string>) {
      match outlook
      case Anything => true
      case Nothing => Underway(proto.name, pending, t.files.Keys)
      case Decided => IsDecided(proto, t, pending, bad)
      case Planned(plan) => IsTurn(proto, plan, t, pending, bad)
    }

    /** And of the loading of its imports, of which the first n have been tried since t0. */
    ghost predicate CanExpectImports(outlook: Outlook, proto: FileProto, n: nat, t0: State, t: State, pending: seq<string>,
                                     bad0: set<string>, bad: set<string>)
      requires n <= |proto.dependencies|
    {
      match outlook
      case Anything => true
      case Nothing => true
      case Decided => NoneLoads(proto, t0.files.Keys, pending, bad0) && t == t0 && bad0 <= bad
      case Planned(plan) => ImportsTurn(proto, plan, t0, pending, bad0) && ImportsOnPlan(plan, proto.name, proto, n, t0, t) && bad == bad0
    }

    /** The file is the member of the plan that can be loaded now. */
    ghost predicate IsTurn(proto: FileProto, plan: Plan, t: State, pending: seq<string>, bad: set<string>) {
      && Ready(plan, database, enforceDependencies, proto.name, t, pending, bad)
      && database.Some? && database.value.byName(proto.name) == Some(proto)
    }

    /** The file is being loaded further up and is not in the tables yet. */
    static ghost predicate Underway(name: string, pending: seq<string>, loaded: set<string>) {
      name in Elements(pending) && name !in loaded
    }

    /** Nothing has changed but that more names may be known to be bad. */
    ghost predicate NothingLoaded(t: State, bad: set<string>)
      reads tables
    {
      tables.View() == t && bad <= tables.knownBadFiles
    }

    /** The database's file of that name is loaded if it can be: in a decided case exactly when it can
        be built on the tables of before, and always when it is a member of a plan whose turn it is. */
    method TryFindFileInFallbackDatabase(name: string, ghost universe: set<string>, ghost outlook: Outlook) returns (ok: bool)
      requires KeysLive(tables.View()) && Finite(database, universe)
      requires CanExpect(outlook, name, tables.View(), tables.pendingFiles, tables.knownBadFiles)
      modifies tables
      ensures Grown(old(tables.View()), tables.View()) && tables.pendingFiles == old(tables.pendingFiles)
      ensures ok ==> database.Some? && database.value.byName(name).Some?
                     && Loaded(tables.View(), database.value.byName(name).value)
      ensures !ok ==> database.None? || name in tables.knownBadFiles
      ensures outlook.Nothing? ==> !ok && NothingLoaded(old(tables.View()), old(tables.knownBadFiles))
      ensures outlook.Decided? ==> database.Some? && database.value.byName(name).Some?
                                   && BuiltIff(ok, database.value.byName(name).value, old(tables.View()))
      ensures outlook.Planned? ==> ok && LoadedOnPlan(outlook.plan, name, old(tables.View()), tables.View())
                                   && tables.knownBadFiles == old(tables.knownBadFiles)
      decreases Measure(universe, tables.pendingFiles, tables.View()), 4
    {
      GrownReflexive(tables.View());
      AnswerMeans(outlook, name, tables.View(), tables.pendingFiles, tables.knownBadFiles);
      if database.None? {
        return false;
      }
      if name in tables.knownBadFiles {
        return false;
      }
      ok := false;
      var proto := database.value.byName(name);
      if proto.Some? {
        var file := BuildFileFromDatabase(proto.value, universe, outlook);
        ok := file.Some?;
      }
      if !ok {
        tables.AddKnownBadFile(name);
      }
    }

    /** What it means for the proto that the database has, unless it is known to be bad. */
    lemma AnswerMeans(outlook: Outlook, name: string, t: State, pending: seq<string>, bad: set<string>)
      requires CanExpect(outlook, name, t, pending, bad)
      ensures outlook.Decided? || outlook.Planned? ==> database.Some? && name !in bad && database.value.byName(name).Some?
      ensures database.Some? && name !in bad && database.value.byName(name).Some? ==>
                var proto := database.value.byName(name).value;
                && (proto.name !in bad ==> CanExpectOf(outlook, proto, t, pending, bad))
                && (proto.name in bad ==> !outlook.Decided? && !outlook.Planned?)
                && (outlook.Planned? ==> proto.name == name)
    {
      if outlook.Planned? {
        ReadyIsMember(outlook.plan, database, enforceDependencies, name, t, pending, bad);
      }
    }

    /** A proper dot-prefix of the name is a symbol that is not a package. */
    ghost predicate HasBuiltParent(symbols: map<string, Keyed<Symbol>>, name: string) {
      exists i :: 0 <= i < |name| && name[i] == '.' && name[..i] in symbols && !symbols[name[..i]].value.IsPackage()
    }

    method IsSubSymbolOfBuiltType(name: string) returns (r: bool)
      ensures r <==> HasBuiltParent(tables.symbolsByName, name)
    {
      var prefix := name;
      while true
        invariant prefix <= name
        invariant forall i :: |prefix| <= i < |name| && name[i] == '.' && name[..i] in tables.symbolsByName ==>
                              tables.symbolsByName[name[..i]].value.IsPackage()
        decreases |prefix|
      {
        var dotPos := SymbolLookup.LastDot(prefix);
        if dotPos < 0 {
          return false;
        }
        prefix := prefix[..dotPos];
        assert prefix == name[..dotPos];
        if prefix in tables.symbolsByName && !tables.symbolsByName[prefix].value.IsPackage() {
          return true;
        }
      }
    }

    ghost predicate Unmoved(t: State, bad: set<string>)
      reads tables
    {
      tables.View() == t && tables.knownBadFiles == bad
    }

    /** What the database has for the symbol can be decided on. */
    ghost predicate SymbolIsDecided(name: string, t: State, pending: seq<string>, bad: set<string>) {
      && database.Some? && database.value.bySymbol(name).Some? && !HasBuiltParent(t.symbols, name)
      && var proto := database.value.bySymbol(name).value; proto.name !in bad && IsDecided(proto, t, pending, bad)
    }

    /** Loads the database's file for the symbol; in a decided case exactly when it can be built. */
    method TryFindSymbolInFallbackDatabase(name: string, ghost universe: set<string>, ghost outlook: Outlook) returns (ok: bool)
      requires KeysLive(tables.View()) && Finite(database, universe) && (outlook.Anything? || outlook.Decided?)
      requires outlook.Decided? ==> name !in tables.knownBadSymbols
      requires outlook.Decided? ==> SymbolIsDecided(name, tables.View(), tables.pendingFiles, tables.knownBadFiles)
      modifies tables
      ensures Grown(old(tables.View()), tables.View()) && tables.pendingFiles == old(tables.pendingFiles)
      ensures ok ==> database.Some? && database.value.bySymbol(name).Some?
                     && database.value.bySymbol(name).value.name !in old(tables.filesByName)
                     && Loaded(tables.View(), database.value.bySymbol(name).value)
      ensures !ok ==> database.None? || name in tables.knownBadSymbols
      ensures database.None? ==> !ok && tables.View() == old(tables.View())
      ensures Quiet(database, old(tables.filesByName).Keys, name) ==> Unmoved(old(tables.View()), old(tables.knownBadFiles))
      ensures outlook.Decided? ==> BuiltIff(ok, database.value.bySymbol(name).value, old(tables.View()))
                                   && (!ok ==> database.value.bySymbol(name).value.name in tables.knownBadFiles)
      decreases Measure(universe, tables.pendingFiles, tables.View()), 4
    {
      if database.None? || name in tables.knownBadSymbols {
        GrownReflexive(tables.View());
        return false;
      }
      ok := BuildFileOf(name, universe, outlook);
      NoteBadSymbol(name, ok);
    }

    method NoteBadSymbol(name: string, ok: bool)
      modifies tables`knownBadSymbols
      ensures tables.View() == old(tables.View()) && (!ok ==> name in tables.knownBadSymbols)
    {
      if !ok {
        tables.AddKnownBadSymbol(name);
      }
    }

    /** The file that the database has for the symbol, unless it is loaded: then it does not have it.
        The database is not asked for a sub-symbol of what is there. */
    method BuildFileOf(name: string, ghost universe: set<string>, ghost outlook: Outlook) returns (ok: bool)
      requires KeysLive(tables.View()) && Finite(database, universe) && database.Some? && (outlook.Anything? || outlook.Decided?)
      requires outlook.Decided? ==> SymbolIsDecided(name, tables.View(), tables.pendingFiles, tables.knownBadFiles)
      modifies tables
      ensures Grown(old(tables.View()), tables.View()) && tables.pendingFiles == old(tables.pendingFiles)
      ensures ok ==> database.value.bySymbol(name).Some?
                     && database.value.bySymbol(name).value.name !in old(tables.filesByName)
                     && Loaded(tables.View(), database.value.bySymbol(name).value)
      ensures Quiet(database, old(tables.filesByName).Keys, name) ==> Unmoved(old(tables.View()), old(tables.knownBadFiles))
      ensures outlook.Decided? ==> BuiltIff(ok, database.value.bySymbol(name).value, old(tables.View()))
                                   && (!ok ==> database.value.bySymbol(name).value.name in tables.knownBadFiles)
      decreases Measure(universe, tables.pendingFiles, tables.View()), 3, 1
    {
      GrownReflexive(tables.View());
      var isSubSymbol := IsSubSymbolOfBuiltType(name);
      if isSubSymbol {
        return false;
      }
      var proto := database.value.bySymbol(name);
      if proto.None? || proto.value.name in tables.filesByName {
        return false;
      }
      NotQuiet(name, tables.filesByName.Keys);
      var file := BuildFileFromDatabase(proto.value, universe, outlook);
      ok := file.Some?;
    }

    lemma NotQuiet(name: string, loaded: set<string>)
      requires database.Some? && database.value.bySymbol(name).Some? && database.value.bySymbol(name).value.name !in loaded
      ensures !Quiet(database, loaded, name)
    {
    }

    method BuildFileFromDatabase(proto: FileProto, ghost universe: set<string>, ghost outlook: Outlook) returns (file: Option<FileDescriptor>)
      requires KeysLive(tables.View()) && Finite(database, universe) && proto.name in universe
      requires if proto.name in tables.knownBadFiles then outlook.Anything? || outlook.Nothing?
               else CanExpectOf(outlook, proto, tables.View(), tables.pendingFiles, tables.knownBadFiles)
      modifies tables
      ensures Grown(old(tables.View()), tables.View()) && tables.pendingFiles == old(tables.pendingFiles)
      ensures file.Some? ==> Loaded(tables.View(), proto)
      ensures outlook.Nothing? ==> file == None && NothingLoaded(old(tables.View()), old(tables.knownBadFiles))
      ensures outlook.Decided? ==> BuiltIff(file.Some?, proto, old(tables.View()))
      ensures file == None ==> proto.name in tables.knownBadFiles
      ensures outlook.Planned? ==> file.Some? && LoadedOnPlan(outlook.plan, proto.name, old(tables.View()), tables.View())
                                   && tables.knownBadFiles == old(tables.knownBadFiles)
      decreases Measure(universe, tables.pendingFiles, tables.View()), 3, 0
    {
      if proto.name in tables.knownBadFiles {
        GrownReflexive(tables.View());
        return None;
      }
      file := BuildFile(proto, universe, outlook);
      if file == None {
        tables.AddKnownBadFile(proto.name);
      }
    }

    /** A file that is there already must match; one that is being loaded further up is refused. */
    method BuildFile(proto: FileProto, ghost universe: set<string>, ghost outlook: Outlook) returns (file: Option<FileDescriptor>)
      requires KeysLive(tables.View()) && Finite(database, universe) && proto.name in universe
      requires CanExpectOf(outlook, proto, tables.View(), tables.pendingFiles, tables.knownBadFiles)
      modifies tables
      ensures Grown(old(tables.View()), tables.View()) && tables.pendingFiles == old(tables.pendingFiles)
      ensures file.Some? ==> Loaded(tables.View(), proto) && tables.filesByName[proto.name].value == file.value
      ensures proto.name in old(tables.filesByName) ==>
                && (file.Some? <==> existingFileMatches(old(tables.filesByName)[proto.name].value, proto))
                && (file.Some? ==> tables.View() == old(tables.View()))
      ensures outlook.Nothing? ==> file == None && NothingLoaded(old(tables.View()), old(tables.knownBadFiles))
      ensures outlook.Decided? ==> BuiltIff(file.Some?, proto, old(tables.View()))
      ensures outlook.Decided? && proto.links == [] ==> old(tables.knownBadFiles) <= tables.knownBadFiles
      ensures outlook.Planned? ==> file.Some? && LoadedOnPlan(outlook.plan, proto.name, old(tables.View()), tables.View())
                                   && tables.knownBadFiles == old(tables.knownBadFiles)
      decreases Measure(universe, tables.pendingFiles, tables.View()), 2
    {
      ghost var t0, bad := tables.View(), tables.knownBadFiles;
      GrownReflexive(t0);
      FreeOrUnderway(outlook, proto, t0, tables.pendingFiles, bad);
      if proto.name in tables.filesByName && existingFileMatches(tables.filesByName[proto.name].value, proto) {
        return Some(tables.filesByName[proto.name].value);
      }
      var pending := IsPending(proto.name);
      if pending {
        return None;
      }
      if database.Some? {
        LoadDependencies(proto, universe, outlook);
      }
      file := BuildLoaded(proto, universe, outlook, t0, bad);
    }

    lemma FreeOrUnderway(outlook: Outlook, proto: FileProto, t: State, pending: seq<string>, bad: set<string>)
      requires CanExpectOf(outlook, proto, t, pending, bad)
      ensures outlook.Nothing? ==> proto.name !in t.files && proto.name in Elements(pending)
      ensures outlook.Decided? ==> proto.name !in t.files && proto.name !in Elements(pending) && ForeseeableBuild(t, proto, {})
      ensures outlook.Planned? ==> proto.name !in t.files && proto.name !in Elements(pending) && database.Some?
    {
    }

    /** The rest of BuildFile, when it has loaded what it could. */
    method BuildLoaded(proto: FileProto, ghost universe: set<string>, ghost outlook: Outlook, ghost t0: State, ghost bad: set<string>)
      returns (file: Option<FileDescriptor>)
      requires Grown(t0, tables.View()) && Finite(database, universe) && proto.name in universe
      requires outlook.Decided? ==> tables.View() == t0 && ForeseeableBuild(t0, proto, {})
      requires outlook.Planned? ==> IsTurn(proto, outlook.plan, t0, tables.pendingFiles, bad) && tables.knownBadFiles == bad
                                    && ImportsOnPlan(outlook.plan, proto.name, proto, |proto.dependencies|, t0, tables.View())
      modifies tables
      ensures Grown(t0, tables.View()) && tables.pendingFiles == old(tables.pendingFiles)
      ensures file.Some? ==> Loaded(tables.View(), proto) && tables.filesByName[proto.name].value == file.value && proto.name !in t0.files
      ensures outlook.Decided? ==> BuiltIff(file.Some?, proto, t0)
      ensures proto.links == [] ==> tables.knownBadFiles == old(tables.knownBadFiles)
      ensures outlook.Planned? ==> file.Some? && LoadedOnPlan(outlook.plan, proto.name, t0, tables.View()) && tables.knownBadFiles == bad
      decreases Measure(universe, tables.pendingFiles, t0), 1, 1
    {
      ghost var t1 := tables.View();
      MeasureNotLarger(universe, tables.pendingFiles, t0, t1);
      if outlook.Planned? {
        MemberCanBuild(outlook.plan, database, enforceDependencies, proto.name, proto, t0, t1, tables.pendingFiles, bad);
      }
      file := BuildFileImpl(proto, universe);
      GrownTransitive(t0, t1, tables.View());
      if outlook.Planned? {
        BuiltIsOnPlan(outlook.plan, proto.name, proto, t1, tables.View());
      }
    }

    /** Loads what the file imports while the file is on the pending list. */
    method LoadDependencies(proto: FileProto, ghost universe: set<string>, ghost outlook: Outlook)
      requires KeysLive(tables.View()) && Finite(database, universe) && proto.name in universe
      requires proto.name !in Elements(tables.pendingFiles)
      requires CanExpectOf(outlook, proto, tables.View(), tables.pendingFiles, tables.knownBadFiles)
      modifies tables
      ensures Grown(old(tables.View()), tables.View()) && tables.pendingFiles == old(tables.pendingFiles)
      ensures outlook.Decided? ==> NothingLoaded(old(tables.View()), old(tables.knownBadFiles))
      ensures outlook.Planned? ==> ImportsOnPlan(outlook.plan, proto.name, proto, |proto.dependencies|, old(tables.View()), tables.View())
                                   && tables.knownBadFiles == old(tables.knownBadFiles)
      decreases Measure(universe, tables.pendingFiles, tables.View()), 1, 0
    {
      ghost var t0, pending, bad := tables.View(), tables.pendingFiles, tables.knownBadFiles;
      MeasureAfterPush(universe, pending, t0, t0, proto.name);
      ImportsCanBeExpected(outlook, proto, t0, pending, bad);
      PushPending(proto.name);
      ghost var t1, bad1 := LoadPushed(proto, universe, outlook, t0, pending, bad);
      ImportsWereExpected(outlook, proto, t0, t1, pending + [proto.name], bad, bad1);
    }

    lemma ImportsWereExpected(outlook: Outlook, proto: FileProto, t: State, t': State, pending: seq<string>, bad: set<string>, bad': set<string>)
      requires CanExpectImports(outlook, proto, |proto.dependencies|, t, t', pending, bad, bad')
      ensures outlook.Decided? ==> t' == t && bad <= bad'
      ensures outlook.Planned? ==> ImportsOnPlan(outlook.plan, proto.name, proto, |proto.dependencies|, t, t') && bad' == bad
    {
    }

    /** Loads the imports and takes the file off the pending list again. */
    method LoadPushed(proto: FileProto, ghost universe: set<string>, ghost outlook: Outlook, ghost t0: State, ghost pending: seq<string>,
                      ghost bad: set<string>) returns (ghost t1: State, ghost bad1: set<string>)
      requires KeysLive(t0) && tables.View() == t0 && tables.pendingFiles == pending + [proto.name] && tables.knownBadFiles == bad && Finite(database, universe)
      requires CanExpectImports(outlook, proto, 0, t0, t0, pending + [proto.name], bad, bad)
      modifies tables
      ensures tables.View() == t1 && tables.pendingFiles == pending && tables.knownBadFiles == bad1
      ensures Grown(t0, t1) && CanExpectImports(outlook, proto, |proto.dependencies|, t0, t1, pending + [proto.name], bad, bad1)
      decreases Measure(universe, pending + [proto.name], t0), 7
    {
      t1, bad1 := LoadAll(proto, universe, outlook, t0, pending + [proto.name], bad);
      PopPending(pending, t1, bad1);
    }

    lemma ImportsCanBeExpected(outlook: Outlook, proto: FileProto, t: State, pending: seq<string>, bad: set<string>)
      requires CanExpectOf(outlook, proto, t, pending, bad)
      ensures CanExpectImports(outlook, proto, 0, t, t, pending + [proto.name], bad, bad)
    {
      if outlook.Planned? {
        PushedIsReady(outlook.plan, database, enforceDependencies, proto.name, t, pending, bad);
      }
    }

    method PushPending(name: string)
      modifies tables`pendingFiles
      ensures tables.pendingFiles == old(tables.pendingFiles) + [name] && tables.View() == old(tables.View())
    {
      tables.pendingFiles := tables.pendingFiles + [name];
    }

    method PopPending(ghost rest: seq<string>, ghost t: State, ghost bad: set<string>)
      requires tables.pendingFiles != [] && tables.pendingFiles[..|tables.pendingFiles| - 1] == rest
      requires tables.View() == t && tables.knownBadFiles == bad
      modifies tables`pendingFiles
      ensures tables.pendingFiles == rest && tables.View() == t && tables.knownBadFiles == bad
    {
      tables.pendingFiles := tables.pendingFiles[..|tables.pendingFiles| - 1];
    }

    /** None of the imports can be loaded that is not there. */
    ghost predicate NoneLoads(proto: FileProto, loaded: set<string>, pending: seq<string>, bad: set<string>) {
      forall i :: 0 <= i < |proto.dependencies| ==> proto.dependencies[i] in loaded || CannotLoad(database, proto.dependencies[i], loaded, pending, bad)
    }

    /** The file is the member of the plan whose imports can be loaded now. */
    ghost predicate ImportsTurn(proto: FileProto, plan: Plan, t: State, pending: seq<string>, bad: set<string>) {
      && ReadyForImports(plan, database, enforceDependencies, proto.name, t, pending, bad)
      && database.Some? && database.value.byName(proto.name) == Some(proto)
    }

    method LoadAll(proto: FileProto, ghost universe: set<string>, ghost outlook: Outlook, ghost t0: State, ghost pending: seq<string>,
                   ghost bad: set<string>)
      returns (ghost t1: State, ghost bad1: set<string>)
      requires KeysLive(t0) && tables.View() == t0 && tables.pendingFiles == pending && tables.knownBadFiles == bad && Finite(database, universe)
      requires CanExpectImports(outlook, proto, 0, t0, t0, pending, bad, bad)
      modifies tables
      ensures tables.View() == t1 && tables.pendingFiles == pending && tables.knownBadFiles == bad1
      ensures Grown(t0, t1) && CanExpectImports(outlook, proto, |proto.dependencies|, t0, t1, pending, bad, bad1)
      decreases Measure(universe, pending, t0), 6
    {
      GrownReflexive(t0);
      var i := 0;
      while i < |proto.dependencies|
        invariant 0 <= i <= |proto.dependencies|
        invariant Grown(t0, tables.View()) && tables.pendingFiles == pending
        invariant CanExpectImports(outlook, proto, i, t0, tables.View(), pending, bad, tables.knownBadFiles)
      {
        i := LoadNext(proto, i, universe, outlook, t0, pending, bad);
      }
      t1, bad1 := tables.View(), tables.knownBadFiles;
    }

    method LoadNext(proto: FileProto, i: nat, ghost universe: set<string>, ghost outlook: Outlook, ghost t0: State,
                    ghost pending: seq<string>, ghost bad: set<string>)
      returns (next: nat)
      requires i < |proto.dependencies| && tables.pendingFiles == pending && Grown(t0, tables.View()) && Finite(database, universe)
      requires CanExpectImports(outlook, proto, i, t0, tables.View(), pending, bad, tables.knownBadFiles)
      modifies tables
      ensures next == i + 1 && Grown(t0, tables.View()) && tables.pendingFiles == pending
      ensures CanExpectImports(outlook, proto, next, t0, tables.View(), pending, bad, tables.knownBadFiles)
      decreases Measure(universe, pending, t0), 5, 1
    {
      next := i + 1;
      ghost var t, now := tables.View(), tables.knownBadFiles;
      MeasureNotLarger(universe, pending, t0, t);
      NextCanBeExpected(outlook, proto, i, t0, t, pending, bad, now);
      LoadDependency(proto.dependencies[i], universe, OfImport(outlook), t0);
      NextWasExpected(outlook, proto, i, next, t0, t, tables.View(), pending, bad, now, tables.knownBadFiles);
    }

    lemma NextCanBeExpected(outlook: Outlook, proto: FileProto, i: nat, t0: State, t: State, pending: seq<string>, bad0: set<string>, bad: set<string>)
      requires i < |proto.dependencies| && Grown(t0, t) && CanExpectImports(outlook, proto, i, t0, t, pending, bad0, bad)
      ensures proto.dependencies[i] in t.files || CanExpect(OfImport(outlook), proto.dependencies[i], t, pending, bad)
    {
      if outlook.Planned? {
        ImportIsReady(outlook.plan, database, enforceDependencies, proto.name, proto, i, t0, t, pending, bad0);
      }
    }

    lemma NextWasExpected(outlook: Outlook, proto: FileProto, i: nat, next: nat, t0: State, t: State, t': State, pending: seq<string>,
                          bad0: set<string>, bad: set<string>, bad': set<string>)
      requires i < |proto.dependencies| && next == i + 1 && Grown(t0, t) && CanExpectImports(outlook, proto, i, t0, t, pending, bad0, bad)
      requires Keeps(t.files, t'.files) && (proto.dependencies[i] in t.files ==> t' == t && bad' == bad)
      requires proto.dependencies[i] !in t.files && outlook.Decided? ==> t' == t && bad <= bad'
      requires proto.dependencies[i] !in t.files && outlook.Planned? ==> LoadedOnPlan(outlook.plan, proto.dependencies[i], t, t') && bad' == bad
      ensures CanExpectImports(outlook, proto, next, t0, t', pending, bad0, bad')
    {
      if outlook.Planned? {
        RankFalls(outlook.plan, database, enforceDependencies, proto.name, proto, i, t0, pending, bad0);
        ImportsGrow(outlook.plan, proto.name, proto, i, next, t0, t, t');
      }
    }

    /** Loads one import, unless it is there; a failure shows later. */
    method LoadDependency(name: string, ghost universe: set<string>, ghost outlook: Outlook, ghost t0: State)
      requires Grown(t0, tables.View()) && Finite(database, universe)
      requires name in tables.filesByName || CanExpect(outlook, name, tables.View(), tables.pendingFiles, tables.knownBadFiles)
      modifies tables
      ensures Grown(t0, tables.View()) && Keeps(old(tables.filesByName), tables.filesByName) && tables.pendingFiles == old(tables.pendingFiles)
      ensures name in old(tables.filesByName) ==> tables.View() == old(tables.View()) && tables.knownBadFiles == old(tables.knownBadFiles)
      ensures name !in old(tables.filesByName) && outlook.Nothing? ==> NothingLoaded(old(tables.View()), old(tables.knownBadFiles))
      ensures name !in old(tables.filesByName) && outlook.Planned? ==>
                LoadedOnPlan(outlook.plan, name, old(tables.View()), tables.View()) && tables.knownBadFiles == old(tables.knownBadFiles)
      decreases Measure(universe, tables.pendingFiles, tables.View()), 5, 0
    {
      if name !in tables.filesByName {
        ghost var before := tables.View();
        var _ := TryFindFileInFallbackDatabase(name, universe, outlook);
        GrownTransitive(t0, before, tables.View());
      }
    }

    method IsPending(name: string) returns (r: bool)
      ensures r <==> name in Elements(tables.pendingFiles)
    {
      for i := 0 to |tables.pendingFiles|
        invariant forall j :: 0 <= j < i ==> tables.pendingFiles[j] != name
      {
        if tables.pendingFiles[i] == name {
          return true;
        }
      }
      return false;
    }

    /** The public imports whose position is valid; ok when all of them are. */
    static method ValidPublic(proto: FileProto) returns (positions: seq<nat>, ok: bool)
      ensures positions == ValidPositions(proto.publicDependencies, |proto.dependencies|)
      ensures ok <==> |positions| == |proto.publicDependencies|
    {
      positions, ok := [], true;
      for i := 0 to |proto.publicDependencies|
        invariant positions == ValidPositions(proto.publicDependencies[..i], |proto.dependencies|)
        invariant ok <==> |positions| == i
      {
        assert proto.publicDependencies[..i + 1][..i] == proto.publicDependencies[..i];
        var index := proto.publicDependencies[i];
        if index >= 0 && index < |proto.dependencies| {
          positions := positions + [index];
        } else {
          ok := false;
        }
      }
      assert proto.publicDependencies[..|proto.publicDependencies|] == proto.publicDependencies;
    }

    /** Declares a package and, when it is new, its parents. */
    method AddPackage(name: string, pointer: nat, file: string, ghost start: State) returns (error: bool)
      requires InBuild(start, tables.View(), file)
      requires pointer < |tables.strings| && tables.strings[pointer] == name
      modifies tables
      ensures InBuild(start, tables.View(), file)
      ensures tables.filesByName == old(tables.filesByName) && tables.pendingFiles == old(tables.pendingFiles) && tables.knownBadFiles == old(tables.knownBadFiles)
      ensures tables.extensions == old(tables.extensions)
      ensures Keeps(old(tables.symbolsByName), tables.symbolsByName) && name in tables.symbolsByName
      ensures !error ==> tables.symbolsByName[name].value.IsPackage()
      ensures error <==> !PackageOk(old(tables.symbolsByName), name)
      ensures forall x :: x in tables.symbolsByName <==> x in old(tables.symbolsByName) || NewParent(old(tables.symbolsByName), name, x)
      ensures NewArePackages(old(tables.symbolsByName), tables.symbolsByName, file)
      ensures !error ==> StaysProper(old(tables.symbolsByName), tables.symbolsByName)
      decreases |name|, 0
    {
      ghost var symbols := tables.symbolsByName;
      var added := EnterSymbol(pointer, Symbol(SymbolLookup.PACKAGE, file), start);
      if added {
        var dotPos := SymbolLookup.LastDot(name);
        ghost var u := tables.symbolsByName;
        if dotPos < 0 {
          error := !ValidIdentifier(name);
        } else {
          LongerNameIsNoParent(symbols, u, name, name[..dotPos]);
          error := AddParent(name[..dotPos], file, start);
          error := error || !ValidIdentifier(name[dotPos + 1..]);
        }
        if !error {
          ProperWithParent(symbols, u, tables.symbolsByName, name);
        }
      } else {
        error := !tables.symbolsByName[name].value.IsPackage();
      }
    }

    method AddParent(name: string, file: string, ghost start: State) returns (error: bool)
      requires InBuild(start, tables.View(), file)
      modifies tables
      ensures InBuild(start, tables.View(), file)
      ensures tables.filesByName == old(tables.filesByName) && tables.pendingFiles == old(tables.pendingFiles) && tables.knownBadFiles == old(tables.knownBadFiles)
      ensures tables.extensions == old(tables.extensions)
      ensures Keeps(old(tables.symbolsByName), tables.symbolsByName) && name in tables.symbolsByName
      ensures !error ==> tables.symbolsByName[name].value.IsPackage()
      ensures error <==> !PackageOk(old(tables.symbolsByName), name)
      ensures forall x :: x in tables.symbolsByName <==> x in old(tables.symbolsByName) || NewParent(old(tables.symbolsByName), name, x)
      ensures NewArePackages(old(tables.symbolsByName), tables.symbolsByName, file)
      ensures !error ==> StaysProper(old(tables.symbolsByName), tables.symbolsByName)
      decreases |name|, 1
    {
      var pointer := AllocateName(name, file, start);
      error := AddPackage(name, pointer, file, start);
    }

    /** Puts the name behind the pointer into the tables, if it is free. */
    method EnterSymbol(pointer: nat, symbol: Symbol, ghost start: State) returns (added: bool)
      requires InBuild(start, tables.View(), symbol.file) && pointer < |tables.strings|
      modifies tables
      ensures InBuild(start, tables.View(), symbol.file)
      ensures tables.filesByName == old(tables.filesByName) && tables.pendingFiles == old(tables.pendingFiles) && tables.knownBadFiles == old(tables.knownBadFiles)
      ensures tables.extensions == old(tables.extensions)
      ensures var name := old(tables.strings)[pointer];
              added == (name !in old(tables.symbolsByName))
              && tables.symbolsByName == if added then old(tables.symbolsByName)[name := Keyed(pointer, symbol)] else old(tables.symbolsByName)
    {
      ghost var t := tables.View();
      AddSymbolExtends(t, pointer, symbol);
      InBuildExtends(start, t, AddSymbolSpec(t, pointer, symbol).1, symbol.file);
      added := tables.AddSymbol(pointer, symbol);
    }

    method AllocateName(name: string, ghost file: string, ghost start: State) returns (pointer: nat)
      requires InBuild(start, tables.View(), file)
      modifies tables`strings
      ensures InBuild(start, tables.View(), file)
      ensures pointer < |tables.strings| && tables.strings[pointer] == name
    {
      ghost var t := tables.View();
      AllocateStringExtends(t, name);
      InBuildExtends(start, t, t.(strings := t.strings + [name]), file);
      pointer := tables.AllocateString(name);
    }

    /** Every import is listed once and is in the tables by now; missing ones become None. */
    method CheckDependencies(proto: FileProto) returns (ok: bool, direct: seq<Option<string>>)
      ensures ok <==> ImportsPresent(tables.filesByName, proto.dependencies)
      ensures direct == Direct(Values(tables.filesByName), proto.dependencies)
    {
      ok, direct := true, [];
      var seen: set<string> := {};
      for i := 0 to |proto.dependencies|
        invariant seen == Elements(proto.dependencies[..i])
        invariant ok <==> Distinct(proto.dependencies[..i])
                          && forall j :: 0 <= j < i ==> proto.dependencies[j] in tables.filesByName
        invariant |direct| == i
        invariant forall j :: 0 <= j < i ==>
                    direct[j] == (if proto.dependencies[j] in tables.filesByName
                                  then Some(proto.dependencies[j]) else None)
      {
        var d := proto.dependencies[i];
        DistinctGrows(proto.dependencies, i);
        if d in seen {
          ok := false;
        }
        seen := seen + {d};
        if d in tables.filesByName {
          direct := direct + [Some(d)];
        } else {
          ok := false;
          direct := direct + [None];
        }
      }
      assert proto.dependencies[..|proto.dependencies|] == proto.dependencies;
    }

    /** The files whose symbols may be used: the direct imports and what they import publicly. */
    method VisibleFiles(direct: seq<Option<string>>, imports: seq<string>) returns (files: set<string>)
      requires direct == Direct(Values(tables.filesByName), imports)
      ensures files == VisibleSet(Values(tables.filesByName), imports) && files <= tables.filesByName.Keys
    {
      var recorder := new PublicDependencies.DependencyRecorder();
      recorder.BuildDependencySet(PublicGraph(Values(tables.filesByName)), direct);
      files := recorder.dependencies;
      forall n | n in files
        ensures n in tables.filesByName
      {
        VisibleIsLoaded(Values(tables.filesByName), imports, n);
      }
    }

    method AddSymbols(proto: FileProto, hadErrors: bool, ghost start: State) returns (errors: bool)
      requires InBuild(start, tables.View(), proto.name)
      modifies tables
      ensures InBuild(start, tables.View(), proto.name) && tables.pendingFiles == old(tables.pendingFiles) && tables.knownBadFiles == old(tables.knownBadFiles)
      ensures SymbolsAdded(old(tables.View()), tables.View(), proto, |proto.symbols|, hadErrors, errors)
    {
      errors := hadErrors;
      ghost var t0 := tables.View();
      NoSymbolsAdded(t0, proto, hadErrors);
      for i := 0 to |proto.symbols|
        invariant InBuild(start, tables.View(), proto.name)
        invariant tables.pendingFiles == old(tables.pendingFiles) && tables.knownBadFiles == old(tables.knownBadFiles)
        invariant SymbolsAdded(t0, tables.View(), proto, i, hadErrors, errors)
      {
        errors := AddNextSymbol(i, errors, proto, start, t0, hadErrors);
      }
    }

    method AddNextSymbol(i: nat, before: bool, proto: FileProto, ghost start: State, ghost t0: State, ghost hadErrors: bool)
      returns (errors: bool)
      requires InBuild(start, tables.View(), proto.name) && i < |proto.symbols|
      requires SymbolsAdded(t0, tables.View(), proto, i, hadErrors, before)
      modifies tables
      ensures InBuild(start, tables.View(), proto.name) && tables.pendingFiles == old(tables.pendingFiles) && tables.knownBadFiles == old(tables.knownBadFiles)
      ensures SymbolsAdded(t0, tables.View(), proto, i + 1, hadErrors, errors)
    {
      ghost var t := tables.View();
      var error := AddOneSymbol(proto.symbols[i], proto, start);
      SymbolsAddedNext(t0, t, tables.View(), proto, i, hadErrors, before, error);
      errors := before || error;
    }

    /** One symbol of the file: its name must be valid and not yet taken. */
    method AddOneSymbol(declared: Declared, proto: FileProto, ghost start: State) returns (error: bool)
      requires InBuild(start, tables.View(), proto.name)
      modifies tables
      ensures InBuild(start, tables.View(), proto.name)
      ensures tables.filesByName == old(tables.filesByName) && tables.pendingFiles == old(tables.pendingFiles) && tables.knownBadFiles == old(tables.knownBadFiles)
      ensures tables.extensions == old(tables.extensions)
      ensures Keeps(old(tables.symbolsByName), tables.symbolsByName)
      ensures forall x :: x in tables.symbolsByName <==> x in old(tables.symbolsByName) || x == FullName(declared)
      ensures error <==> FullName(declared) in old(tables.symbolsByName) || !ValidIdentifier(declared.name)
      ensures !error ==> SymbolDefined(tables.View(), FullName(declared), proto)
      ensures NewAreListed(old(tables.symbolsByName), tables.symbolsByName, proto)
    {
      var fullName := FullName(declared);
      var pointer := AllocateName(fullName, proto.name, start);
      error := !ValidIdentifier(declared.name);
      var added := EnterSymbol(pointer, SymbolOf(proto, fullName), start);
      if !added {
        error := true;
      }
    }

    /** What the file finds while it is linked can be told beforehand: either nothing can be loaded, or
        only the files it can see count and the tables are settled. */
    ghost predicate Foreseeable(t: State, proto: FileProto, dependencies: set<string>) {
      database.None? || (enforceDependencies && Settled(t.symbols, t.files, {}) && Knows(t.files, proto, dependencies))
    }

    ghost predicate SameForFile(t: State, t': State, proto: FileProto, dependencies: set<string>) {
      Foreseeable(t, proto, dependencies) ==> Foreseeable(t', proto, dependencies) && SameFinds(t, t', proto, dependencies, enforceDependencies)
    }

    /** After the first i links, when t0 was the state before; fields are the numbers used so far. */
    ghost predicate Linked(t0: State, t: State, proto: FileProto, dependencies: set<string>, i: nat, hadErrors: bool, errors: bool,
                           fields: set<FieldKey>)
      requires i <= |proto.links|
    {
      && Kept(t0, t) && SameForFile(t0, t, proto, dependencies)
      && (Settled(t0.symbols, t0.files, {}) ==> Settled(t.symbols, t.files, {}))
      && (hadErrors ==> errors)
      && (!errors ==> LinksDone(t0.extensions, t, proto, i))
      && (i == 0 ==> errors == hadErrors)
      && OwnAmong(t0.extensions, t.extensions, proto.name, fields)
    }

    ghost predicate LinkedSo(find: string -> SymbolLookup.Symbol, proto: FileProto, i: nat, hadErrors: bool, errors: bool,
                             fields: set<FieldKey>)
      requires i <= |proto.links|
    {
      && (forall key {:trigger Used(find, proto.links, i, key)} :: key in fields <==> Used(find, proto.links, i, key))
      && (errors <==> hadErrors || !AllLink(find, proto.links, i))
    }

    /** What one link comes to, when it is foreseeable. */
    ghost predicate LinkedAs(find: string -> SymbolLookup.Symbol, link: CrossLink, fields: set<FieldKey>, ok: bool, fields': set<FieldKey>) {
      var key := KeyOf(find, link);
      && (ok <==> LinkResolves(find, link) && (key.Some? ==> key.value !in fields))
      && forall k :: k in fields' <==> k in fields || key == Some(k)
    }

    lemma NothingLinked(start: State, t: State, proto: FileProto, dependencies: set<string>, i: nat, hadErrors: bool, fields: set<FieldKey>)
      requires start.extensions == t.extensions && proto.name in t.files && InBuild(start, t, proto.name)
      requires i == 0 && fields == {}
      ensures Linking(start, t, t, proto, dependencies, i, hadErrors, hadErrors, fields)
    {
    }

    lemma AllLinked(start: State, t0: State, t: State, proto: FileProto, dependencies: set<string>, i: nat, hadErrors: bool,
                    errors: bool, fields: set<FieldKey>)
      requires i == |proto.links| && Linking(start, t0, t, proto, dependencies, i, hadErrors, errors, fields)
      ensures Linking(start, t0, t, proto, dependencies, |proto.links|, hadErrors, errors, fields)
    {
    }

    lemma LinkedSoNext(find: string -> SymbolLookup.Symbol, proto: FileProto, i: nat, hadErrors: bool, errors: bool,
                       fields: set<FieldKey>, ok: bool, fields': set<FieldKey>)
      requires i < |proto.links| && LinkedSo(find, proto, i, hadErrors, errors, fields)
      requires LinkedAs(find, proto.links[i], fields, ok, fields')
      ensures LinkedSo(find, proto, i + 1, hadErrors, errors || !ok, fields')
    {
      OneMoreLinks(find, proto.links, i);
      var key := KeyOf(find, proto.links[i]);
      forall k
        ensures k in fields' <==> Used(find, proto.links, i + 1, k)
      {
        assert k in fields <==> Used(find, proto.links, i, k);
        UsedByNext(find, proto.links, i, k);
      }
      assert key.Some? ==> (key.value in fields <==> Used(find, proto.links, i, key.value));
    }

    lemma LinkedNext(t0: State, t: State, t': State, proto: FileProto, dependencies: set<string>, i: nat, next: nat, hadErrors: bool,
                     errors: bool, fields: set<FieldKey>, ok: bool, fields': set<FieldKey>)
      requires i < |proto.links| && next == i + 1 && Linked(t0, t, proto, dependencies, i, hadErrors, errors, fields)
      requires Kept(t, t') && SameForFile(t, t', proto, dependencies)
      requires Settled(t.symbols, t.files, {}) ==> Settled(t'.symbols, t'.files, {})
      requires ok ==> LinkDone(t0.extensions, t', proto.name, proto.links[i])
      requires OwnAmong(t0.extensions, t'.extensions, proto.name, fields')
      requires Foreseeable(t, proto, dependencies) ==>
                 LinkedAs(Finder(t, proto, dependencies, enforceDependencies), proto.links[i], fields, ok, fields')
      ensures Linked(t0, t', proto, dependencies, next, hadErrors, errors || !ok, fields')
      ensures var find := Finder(t0, proto, dependencies, enforceDependencies);
              Foreseeable(t0, proto, dependencies) && LinkedSo(find, proto, i, hadErrors, errors, fields) ==>
                LinkedSo(find, proto, next, hadErrors, errors || !ok, fields')
    {
      KeptTransitive(t0, t, t');
      if !errors {
        LinksStay(t0.extensions, t, t', proto, i);
      }
      if Foreseeable(t0, proto, dependencies) && LinkedSo(Finder(t0, proto, dependencies, enforceDependencies), proto, i, hadErrors, errors, fields) {
        SameFindsSameLink(Finder(t0, proto, dependencies, enforceDependencies),
                          Finder(t, proto, dependencies, enforceDependencies), proto.links[i]);
        LinkedSoNext(Finder(t0, proto, dependencies, enforceDependencies), proto, i, hadErrors, errors, fields, ok, fields');
      }
    }

    /** The state of the loop over the links. */
    ghost predicate Linking(start: State, t0: State, t: State, proto: FileProto, dependencies: set<string>, i: nat, hadErrors: bool,
                            errors: bool, fields: set<FieldKey>)
      requires i <= |proto.links|
    {
      && start.extensions == t0.extensions && proto.name in t0.files
      && InBuild(start, t, proto.name) && Linked(t0, t, proto, dependencies, i, hadErrors, errors, fields)
      && (Foreseeable(t0, proto, dependencies) ==>
            LinkedSo(Finder(t0, proto, dependencies, enforceDependencies), proto, i, hadErrors, errors, fields))
    }

    /** Resolves references and registers fields and extensions. A reference may build further files,
        but where that is foreseeable it makes no difference to what the references find. */
    method CrossLinkFile(proto: FileProto, hadErrors: bool, dependencies: set<string>, ghost start: State,
                         ghost universe: set<string>) returns (errors: bool, fields: set<FieldKey>)
      requires InBuild(start, tables.View(), proto.name) && Finite(database, universe) && proto.name in tables.filesByName
      requires start.extensions == tables.extensions
      modifies tables
      ensures Linking(start, old(tables.View()), tables.View(), proto, dependencies, |proto.links|, hadErrors, errors, fields)
      ensures tables.pendingFiles == old(tables.pendingFiles)
      ensures QuietFile(database, old(tables.filesByName).Keys, proto) ==>
                Stays(old(tables.filesByName), old(tables.symbolsByName), old(tables.knownBadFiles))
      decreases Measure(universe, tables.pendingFiles, tables.View()), 16
    {
      errors, fields := hadErrors, {};
      ghost var t0 := tables.View();
      var i := 0;
      NothingLinked(start, t0, proto, dependencies, i, hadErrors, fields);
      while i < |proto.links|
        invariant 0 <= i <= |proto.links|
        invariant Linking(start, t0, tables.View(), proto, dependencies, i, hadErrors, errors, fields)
        invariant tables.pendingFiles == old(tables.pendingFiles)
        invariant QuietFile(database, t0.files.Keys, proto) ==> Stays(t0.files, t0.symbols, old(tables.knownBadFiles))
      {
        errors, fields, i := CrossLinkNext(i, errors, fields, proto, dependencies, start, universe, t0, tables.View(), hadErrors);
      }
      AllLinked(start, t0, tables.View(), proto, dependencies, i, hadErrors, errors, fields);
    }

    method CrossLinkNext(i: nat, before: bool, fields: set<FieldKey>, proto: FileProto, dependencies: set<string>, ghost start: State,
                         ghost universe: set<string>, ghost t0: State, ghost t: State, ghost hadErrors: bool)
      returns (errors: bool, fields': set<FieldKey>, next: nat)
      requires i < |proto.links| && Finite(database, universe) && t == tables.View()
      requires Linking(start, t0, t, proto, dependencies, i, hadErrors, before, fields)
      modifies tables
      ensures next == i + 1 && Linking(start, t0, tables.View(), proto, dependencies, next, hadErrors, errors, fields')
      ensures tables.pendingFiles == old(tables.pendingFiles)
      ensures QuietLink(database, t.files.Keys, proto.links[i]) ==> Stays(t.files, t.symbols, old(tables.knownBadFiles))
      decreases Measure(universe, tables.pendingFiles, t0), 15, 1
    {
      LinkingMeans(start, t0, t, proto, dependencies, i, hadErrors, before, fields);
      MeasureNotLarger(universe, tables.pendingFiles, t0, t);
      var ok;
      ok, fields' := CrossLink(proto.links[i], fields, proto, dependencies, start, universe, t);
      errors, next := before || !ok, i + 1;
      LinkingNext(start, t0, t, tables.View(), proto, dependencies, i, next, hadErrors, before, fields, ok, fields');
    }

    lemma LinkingMeans(start: State, t0: State, t: State, proto: FileProto, dependencies: set<string>, i: nat,
                       hadErrors: bool, errors: bool, fields: set<FieldKey>)
      requires i <= |proto.links| && Linking(start, t0, t, proto, dependencies, i, hadErrors, errors, fields)
      ensures InBuild(start, t, proto.name) && proto.name in t.files && Keeps(t0.files, t.files)
      ensures OwnAmong(start.extensions, t.extensions, proto.name, fields)
    {
    }

    lemma LinkingNext(start: State, t0: State, t: State, t': State, proto: FileProto, dependencies: set<string>, i: nat, next: nat,
                      hadErrors: bool, errors: bool, fields: set<FieldKey>, ok: bool, fields': set<FieldKey>)
      requires i < |proto.links| && next == i + 1 && Linking(start, t0, t, proto, dependencies, i, hadErrors, errors, fields)
      requires LinkKeeps(start, t, t', proto, dependencies)
      requires ok ==> LinkDone(start.extensions, t', proto.name, proto.links[i])
      requires OwnAmong(start.extensions, t'.extensions, proto.name, fields')
      requires Foreseeable(t, proto, dependencies) ==>
                 LinkedAs(Finder(t, proto, dependencies, enforceDependencies), proto.links[i], fields, ok, fields')
      ensures Linking(start, t0, t', proto, dependencies, next, hadErrors, errors || !ok, fields')
    {
      LinkedNext(t0, t, t', proto, dependencies, i, next, hadErrors, errors, fields, ok, fields');
    }

    /** Nothing is loaded; only extensions may be registered. */
    ghost predicate Stays(files: map<string, Keyed<FileDescriptor>>, symbols: map<string, Keyed<Symbol>>, bad: set<string>)
      reads tables
    {
      tables.filesByName == files && tables.symbolsByName == symbols && tables.knownBadFiles == bad
    }

    /** What a link leaves alone. */
    ghost predicate LinkKeeps(start: State, t: State, t': State, proto: FileProto, dependencies: set<string>) {
      && InBuild(start, t', proto.name) && Kept(t, t') && SameForFile(t, t', proto, dependencies)
      && (Settled(t.symbols, t.files, {}) ==> Settled(t'.symbols, t'.files, {}))
    }

    lemma GrownKeeps(start: State, t: State, t': State, proto: FileProto, dependencies: set<string>, fields: set<FieldKey>)
      requires InBuild(start, t, proto.name) && Grown(t, t') && SameForFile(t, t', proto, dependencies) && proto.name in t.files
      requires OwnAmong(start.extensions, t.extensions, proto.name, fields)
      ensures LinkKeeps(start, t, t', proto, dependencies)
      ensures OwnAmong(start.extensions, t'.extensions, proto.name, fields)
    {
      LoadingAddsNoOwn(start.extensions, t, t', proto.name, fields);
      InBuildGrows(start, t, t', proto.name);
    }

    lemma LinkKeepsTransitive(start: State, t: State, u: State, v: State, proto: FileProto, dependencies: set<string>)
      requires LinkKeeps(start, t, u, proto, dependencies) && LinkKeeps(start, u, v, proto, dependencies)
      ensures LinkKeeps(start, t, v, proto, dependencies)
    {
      KeptTransitive(t, u, v);
    }

    method CrossLink(link: CrossLink, fields: set<FieldKey>, proto: FileProto, dependencies: set<string>, ghost start: State,
                     ghost universe: set<string>, ghost t: State) returns (ok: bool, fields': set<FieldKey>)
      requires t == tables.View() && InBuild(start, t, proto.name) && Finite(database, universe) && proto.name in t.files
      requires OwnAmong(start.extensions, t.extensions, proto.name, fields)
      modifies tables
      ensures LinkKeeps(start, t, tables.View(), proto, dependencies) && tables.pendingFiles == old(tables.pendingFiles)
      ensures ok ==> LinkDone(start.extensions, tables.View(), proto.name, link)
      ensures OwnAmong(start.extensions, tables.extensions, proto.name, fields')
      ensures Foreseeable(t, proto, dependencies) ==>
                LinkedAs(Finder(t, proto, dependencies, enforceDependencies), link, fields, ok, fields')
      ensures QuietLink(database, t.files.Keys, link) ==>
                Stays(t.files, t.symbols, old(tables.knownBadFiles))
      decreases Measure(universe, tables.pendingFiles, t), 15, 0
    {
      match link
      case Reference(_) => ok, fields' := LinkReference(link, fields, proto, dependencies, start, universe);
      case Field(_, _, _) => ok, fields' := LinkField(link, fields, proto, dependencies, start, universe);
      case Extension(_, _, _, _) => ok, fields' := LinkExtension(link, fields, proto, dependencies, start, universe);
    }

    method LinkReference(link: CrossLink, fields: set<FieldKey>, proto: FileProto, dependencies: set<string>, ghost start: State,
                         ghost universe: set<string>) returns (ok: bool, fields': set<FieldKey>)
      requires InBuild(start, tables.View(), proto.name) && Finite(database, universe) && proto.name in tables.filesByName
      requires OwnAmong(start.extensions, tables.extensions, proto.name, fields) && link.Reference?
      modifies tables
      ensures LinkKeeps(start, old(tables.View()), tables.View(), proto, dependencies) && tables.pendingFiles == old(tables.pendingFiles)
      ensures ok ==> LinkDone(start.extensions, tables.View(), proto.name, link)
      ensures OwnAmong(start.extensions, tables.extensions, proto.name, fields')
      ensures Foreseeable(old(tables.View()), proto, dependencies) ==>
                LinkedAs(Finder(old(tables.View()), proto, dependencies, enforceDependencies), link, fields, ok, fields')
      ensures QuietLink(database, old(tables.filesByName).Keys, link) ==>
                Stays(old(tables.filesByName), old(tables.symbolsByName), old(tables.knownBadFiles))
      decreases Measure(universe, tables.pendingFiles, tables.View()), 14, 1
    {
      ghost var t := tables.View();
      var symbol;
      symbol, ok := Resolve(link.target, proto, dependencies, universe);
      fields' := fields;
      GrownKeeps(start, t, tables.View(), proto, dependencies, fields);
      if ok {
        ReferenceDone(start.extensions, tables.View(), proto.name, link, symbol.name);
      }
    }

    lemma ReferenceDone(before: Extensions, t: State, file: string, link: CrossLink, x: string)
      requires link.Reference? && TargetDone(t.symbols, link.target, x)
      ensures LinkDone(before, t, file, link)
    {
    }

    /** An ordinary field of one of the messages of the file. */
    method LinkField(link: CrossLink, fields: set<FieldKey>, proto: FileProto, dependencies: set<string>, ghost start: State,
                     ghost universe: set<string>) returns (ok: bool, fields': set<FieldKey>)
      requires InBuild(start, tables.View(), proto.name) && Finite(database, universe) && proto.name in tables.filesByName
      requires OwnAmong(start.extensions, tables.extensions, proto.name, fields) && link.Field?
      modifies tables
      ensures LinkKeeps(start, old(tables.View()), tables.View(), proto, dependencies) && tables.pendingFiles == old(tables.pendingFiles)
      ensures ok ==> LinkDone(start.extensions, tables.View(), proto.name, link)
      ensures OwnAmong(start.extensions, tables.extensions, proto.name, fields')
      ensures Foreseeable(old(tables.View()), proto, dependencies) ==>
                LinkedAs(Finder(old(tables.View()), proto, dependencies, enforceDependencies), link, fields, ok, fields')
      ensures QuietLink(database, old(tables.filesByName).Keys, link) ==>
                Stays(old(tables.filesByName), old(tables.symbolsByName), old(tables.knownBadFiles))
      decreases Measure(universe, tables.pendingFiles, tables.View()), 14, 1
    {
      ghost var t := tables.View();
      ok := ResolveType(link.fieldType, proto, dependencies, universe);
      ghost var resolved := ok;
      fields' := fields;
      if ok {
        ok, fields' := AddFieldByNumber(fields, (link.message, link.number));
      }
      GrownKeeps(start, t, tables.View(), proto, dependencies, fields);
      if Foreseeable(t, proto, dependencies) {
        FieldLinkedAs(Finder(t, proto, dependencies, enforceDependencies), link, fields, resolved, ok, fields');
      }
    }

    lemma FieldLinkedAs(find: string -> SymbolLookup.Symbol, link: CrossLink, fields: set<FieldKey>, resolved: bool, ok: bool,
                        fields': set<FieldKey>)
      requires link.Field? && (resolved <==> TypeResolves(find, link.fieldType))
      requires var key := (link.message, link.number);
               (ok <==> resolved && key !in fields) && fields' == if resolved then fields + {key} else fields
      ensures LinkedAs(find, link, fields, ok, fields')
    {
    }

    /** The number of an extension counts only once its extendee and its type are resolved. */
    method LinkExtension(link: CrossLink, fields: set<FieldKey>, proto: FileProto, dependencies: set<string>, ghost start: State,
                         ghost universe: set<string>) returns (ok: bool, fields': set<FieldKey>)
      requires InBuild(start, tables.View(), proto.name) && Finite(database, universe) && proto.name in tables.filesByName
      requires OwnAmong(start.extensions, tables.extensions, proto.name, fields) && link.Extension?
      modifies tables
      ensures LinkKeeps(start, old(tables.View()), tables.View(), proto, dependencies) && tables.pendingFiles == old(tables.pendingFiles)
      ensures ok ==> LinkDone(start.extensions, tables.View(), proto.name, link)
      ensures OwnAmong(start.extensions, tables.extensions, proto.name, fields')
      ensures Foreseeable(old(tables.View()), proto, dependencies) ==>
                LinkedAs(Finder(old(tables.View()), proto, dependencies, enforceDependencies), link, fields, ok, fields')
      ensures QuietLink(database, old(tables.filesByName).Keys, link) ==>
                Stays(old(tables.filesByName), old(tables.symbolsByName), old(tables.knownBadFiles))
      decreases Measure(universe, tables.pendingFiles, tables.View()), 14, 1
    {
      ghost var t := tables.View();
      var symbol;
      symbol, ok := ResolveBoth(link.extendee, link.fieldType, proto, dependencies, universe);
      ghost var u, resolved := tables.View(), ok;
      GrownKeeps(start, t, u, proto, dependencies, fields);
      fields' := fields;
      if ok {
        ok, fields' := AddFieldByNumber(fields, (symbol.name, link.number));
        if ok {
          Register((symbol.name, link.number), ExtensionField(link.field, proto.name), fields, proto, dependencies, start);
          LinkKeepsTransitive(start, t, u, tables.View(), proto, dependencies);
          ExtensionDone(start.extensions, tables.View(), proto.name, link, symbol.name);
        }
      }
      if Foreseeable(t, proto, dependencies) {
        ExtensionLinkedAs(Finder(t, proto, dependencies, enforceDependencies), link, fields, resolved, ok, fields');
      }
    }

    lemma ExtensionDone(before: Extensions, t: State, file: string, link: CrossLink, x: string)
      requires link.Extension? && TypeDone(t.symbols, link.fieldType) && TargetDone(t.symbols, link.extendee, x)
      requires Registered(before, t.extensions, (x, link.number), ExtensionField(link.field, file))
      ensures LinkDone(before, t, file, link)
    {
    }

    lemma ExtensionLinkedAs(find: string -> SymbolLookup.Symbol, link: CrossLink, fields: set<FieldKey>, resolved: bool, ok: bool,
                            fields': set<FieldKey>)
      requires link.Extension? && (resolved <==> Resolves(find, link.extendee) && TypeResolves(find, link.fieldType))
      requires var key := (Sought(find, link.extendee).name, link.number);
               (ok <==> resolved && key !in fields) && fields' == if resolved then fields + {key} else fields
      ensures LinkedAs(find, link, fields, ok, fields')
    {
    }

    /** The fields of one file by their number: a number that is used twice in it is an error. */
    static method AddFieldByNumber(fields: set<FieldKey>, key: FieldKey) returns (ok: bool, fields': set<FieldKey>)
      ensures ok <==> key !in fields
      ensures fields' == fields + {key}
    {
      ok := key !in fields;
      fields' := fields + {key};
    }

    /** The extensions of all files: when another file has the number, that is worth a warning only. */
    method Register(key: FieldKey, field: ExtensionField, ghost fields: set<FieldKey>, ghost proto: FileProto,
                    ghost dependencies: set<string>, ghost start: State)
      requires InBuild(start, tables.View(), proto.name) && field.file == proto.name
      requires OwnAmong(start.extensions, tables.extensions, proto.name, fields) && key !in fields
      modifies tables
      ensures LinkKeeps(start, old(tables.View()), tables.View(), proto, dependencies) && tables.pendingFiles == old(tables.pendingFiles)
      ensures tables.symbolsByName == old(tables.symbolsByName) && tables.filesByName == old(tables.filesByName)
      ensures tables.knownBadFiles == old(tables.knownBadFiles)
      ensures tables.extensions == if key in old(tables.extensions) then old(tables.extensions) else old(tables.extensions)[key := field]
      ensures Registered(start.extensions, tables.extensions, key, field)
      ensures OwnAmong(start.extensions, tables.extensions, proto.name, fields + {key})
    {
      ghost var t := tables.View();
      AddedIsRegistered(start.extensions, t.extensions, key, field, fields);
      AddExtensionExtends(t, key, field);
      InBuildExtends(start, t, AddExtensionSpec(t, key, field).1, proto.name);
      var _ := tables.AddExtension(key, field);
    }

    /** Looks the target up and checks the kind of what was found. */
    method Resolve(target: Target, proto: FileProto, dependencies: set<string>, ghost universe: set<string>)
      returns (symbol: SymbolLookup.Symbol, ok: bool)
      requires KeysLive(tables.View()) && Finite(database, universe)
      modifies tables
      ensures Grown(old(tables.View()), tables.View()) && tables.pendingFiles == old(tables.pendingFiles)
      ensures SameForFile(old(tables.View()), tables.View(), proto, dependencies)
      ensures ok ==> TargetDone(tables.symbolsByName, target, symbol.name)
      ensures var find := Finder(old(tables.View()), proto, dependencies, enforceDependencies);
              Foreseeable(old(tables.View()), proto, dependencies) ==> (ok <==> Resolves(find, target)) && symbol == Sought(find, target)
      ensures QuietFor(database, old(tables.filesByName).Keys, target) ==> Unmoved(old(tables.View()), old(tables.knownBadFiles))
      decreases Measure(universe, tables.pendingFiles, tables.View()), 12
    {
      var undefinedName;
      symbol, undefinedName := LookupSymbolNoPlaceholder(target.name, target.relativeTo, target.mode, proto, dependencies, universe);
      ok := !symbol.IsNull() && symbol.kind in target.wanted;
    }

    method ResolveType(fieldType: Option<Target>, proto: FileProto, dependencies: set<string>, ghost universe: set<string>)
      returns (ok: bool)
      requires KeysLive(tables.View()) && Finite(database, universe)
      modifies tables
      ensures Grown(old(tables.View()), tables.View()) && tables.pendingFiles == old(tables.pendingFiles)
      ensures SameForFile(old(tables.View()), tables.View(), proto, dependencies)
      ensures ok ==> TypeDone(tables.symbolsByName, fieldType)
      ensures Foreseeable(old(tables.View()), proto, dependencies) ==>
                (ok <==> TypeResolves(Finder(old(tables.View()), proto, dependencies, enforceDependencies), fieldType))
      ensures QuietType(database, old(tables.filesByName).Keys, fieldType) ==> Unmoved(old(tables.View()), old(tables.knownBadFiles))
      decreases Measure(universe, tables.pendingFiles, tables.View()), 13
    {
      GrownReflexive(tables.View());
      ok := true;
      if fieldType.Some? {
        var symbol;
        symbol, ok := Resolve(fieldType.value, proto, dependencies, universe);
      }
    }

    /** The extendee and then the type of an extension. */
    method ResolveBoth(extendee: Target, fieldType: Option<Target>, proto: FileProto, dependencies: set<string>, ghost universe: set<string>)
      returns (symbol: SymbolLookup.Symbol, ok: bool)
      requires KeysLive(tables.View()) && Finite(database, universe)
      modifies tables
      ensures Grown(old(tables.View()), tables.View()) && tables.pendingFiles == old(tables.pendingFiles)
      ensures SameForFile(old(tables.View()), tables.View(), proto, dependencies)
      ensures ok ==> TargetDone(tables.symbolsByName, extendee, symbol.name) && TypeDone(tables.symbolsByName, fieldType)
      ensures var find := Finder(old(tables.View()), proto, dependencies, enforceDependencies);
              Foreseeable(old(tables.View()), proto, dependencies) ==>
                (ok <==> Resolves(find, extendee) && TypeResolves(find, fieldType)) && symbol == Sought(find, extendee)
      ensures QuietFor(database, old(tables.filesByName).Keys, extendee) && QuietType(database, old(tables.filesByName).Keys, fieldType) ==>
                Unmoved(old(tables.View()), old(tables.knownBadFiles))
      decreases Measure(universe, tables.pendingFiles, tables.View()), 14, 0
    {
      ghost var t := tables.View();
      symbol, ok := Resolve(extendee, proto, dependencies, universe);
      ghost var u := tables.View();
      MeasureNotLarger(universe, tables.pendingFiles, t, u);
      if ok {
        ok := ResolveType(fieldType, proto, dependencies, universe);
        GrownTransitive(t, u, tables.View());
        if Foreseeable(t, proto, dependencies) {
          SameFindsSameType(Finder(t, proto, dependencies, enforceDependencies),
                            Finder(u, proto, dependencies, enforceDependencies), fieldType);
        }
      }
    }

    /** What the name means in the scope, on the tables t. */
    ghost function Meaning(t: State, name: string, relativeTo: string, mode: SymbolLookup.ResolveMode, proto: FileProto,
                           dependencies: set<string>): SymbolLookup.Lookup
    {
      SymbolLookup.LookupIn(Finder(t, proto, dependencies, enforceDependencies), name, relativeTo, mode)
    }

    /** The same by chopping strings, for a name without a leading dot. */
    ghost function Chopped(t: State, name: string, scope: string, mode: SymbolLookup.ResolveMode, proto: FileProto,
                           dependencies: set<string>): SymbolLookup.Lookup
    {
      SymbolLookup.ResolveString(Finder(t, proto, dependencies, enforceDependencies), scope, name, mode)
    }

    lemma ChoppedIsMeaning(t: State, name: string, relativeTo: string, mode: SymbolLookup.ResolveMode, proto: FileProto,
                           dependencies: set<string>)
      requires !(name != "" && name[0] == '.')
      ensures Chopped(t, name, relativeTo, mode, proto, dependencies) == Meaning(t, name, relativeTo, mode, proto, dependencies)
    {
      SymbolLookup.StringLookupIsResolve(Finder(t, proto, dependencies, enforceDependencies), relativeTo, name, mode);
    }

    lemma TriedFurtherOut(name: string, scope: string, relativeTo: string, x: string)
      requires IsTried(name, scope, x) && scope <= relativeTo
      ensures IsTried(name, relativeTo, x)
    {
      if i :| 0 <= i < |scope| && scope[i] == '.' && x == scope[..i] + "." + name {
        assert relativeTo[i] == '.' && scope[..i] == relativeTo[..i];
      }
    }

    /** Resolves a name in a scope. Files may be loaded between two tries of the loop; where that is
        foreseeable the answer is the one of Resolve on the tables of before. */
    method LookupSymbolNoPlaceholder(name: string, relativeTo: string, mode: SymbolLookup.ResolveMode, proto: FileProto, dependencies: set<string>,
                                     ghost universe: set<string>) returns (symbol: SymbolLookup.Symbol, undefinedName: string)
      requires KeysLive(tables.View()) && Finite(database, universe)
      modifies tables
      ensures Grown(old(tables.View()), tables.View()) && tables.pendingFiles == old(tables.pendingFiles)
      ensures !symbol.IsNull() ==> IsTried(name, relativeTo, symbol.name) && IsFound(symbol, symbol.name, proto, dependencies)
      ensures SameForFile(old(tables.View()), tables.View(), proto, dependencies)
      ensures Foreseeable(old(tables.View()), proto, dependencies) ==>
                SymbolLookup.Lookup(symbol, undefinedName) == Meaning(old(tables.View()), name, relativeTo, mode, proto, dependencies)
      ensures QuietIn(database, old(tables.filesByName).Keys, name, relativeTo) ==> Unmoved(old(tables.View()), old(tables.knownBadFiles))
      decreases Measure(universe, tables.pendingFiles, tables.View()), 11
    {
      ghost var t0 := tables.View();
      GrownReflexive(t0);
      if |name| > 0 && name[0] == '.' {
        assert IsAsked(name, relativeTo, name[1..]);
        symbol := FindAgain(name[1..], proto, dependencies, universe, t0);
        undefinedName := "";
      } else {
        ChoppedIsMeaning(t0, name, relativeTo, mode, proto, dependencies);
        symbol, undefinedName := LookupInScopes(name, relativeTo, mode, proto, dependencies, universe, t0);
      }
      SinceIsSame(t0, tables.View(), proto, dependencies);
    }

    method LookupInScopes(name: string, relativeTo: string, mode: SymbolLookup.ResolveMode, proto: FileProto, dependencies: set<string>,
                          ghost universe: set<string>, ghost t0: State) returns (symbol: SymbolLookup.Symbol, undefinedName: string)
      requires Since(t0, tables.View()) && Finite(database, universe) && !(name != "" && name[0] == '.')
      modifies tables
      ensures Since(t0, tables.View()) && tables.pendingFiles == old(tables.pendingFiles)
      ensures !symbol.IsNull() ==> IsTried(name, relativeTo, symbol.name) && IsFound(symbol, symbol.name, proto, dependencies)
      ensures Foreseeable(t0, proto, dependencies) ==>
                SymbolLookup.Lookup(symbol, undefinedName) == Chopped(t0, name, relativeTo, mode, proto, dependencies)
      ensures QuietIn(database, old(tables.filesByName).Keys, name, relativeTo) ==> Unmoved(old(tables.View()), old(tables.knownBadFiles))
      decreases Measure(universe, tables.pendingFiles, tables.View()), 10
    {
      ghost var t := tables.View();
      var scopeToTry := relativeTo;
      while true
        invariant Since(t0, tables.View()) && Keeps(t.files, tables.filesByName) && tables.pendingFiles == old(tables.pendingFiles)
        invariant scopeToTry <= relativeTo
        invariant Foreseeable(t0, proto, dependencies) ==>
                    Chopped(t0, name, scopeToTry, mode, proto, dependencies) == Chopped(t0, name, relativeTo, mode, proto, dependencies)
        invariant QuietIn(database, t.files.Keys, name, relativeTo) ==> Unmoved(t, old(tables.knownBadFiles))
        decreases |scopeToTry|
      {
        MeasureNotLarger(universe, tables.pendingFiles, t, tables.View());
        if QuietIn(database, t.files.Keys, name, relativeTo) {
          QuietFurtherIn(database, t.files.Keys, name, scopeToTry, relativeTo);
        }
        var done, rest;
        done, rest, symbol, undefinedName := TryScope(scopeToTry, name, mode, proto, dependencies, universe, t0);
        if done {
          if !symbol.IsNull() {
            TriedFurtherOut(name, scopeToTry, relativeTo, symbol.name);
          }
          return;
        }
        scopeToTry := rest;
      }
    }

    /** One round of the loop: chops off the last component of the scope and looks there; without one
        the name itself is looked up. */
    method TryScope(scope: string, name: string, mode: SymbolLookup.ResolveMode, proto: FileProto, dependencies: set<string>,
                    ghost universe: set<string>, ghost t0: State)
      returns (done: bool, rest: string, symbol: SymbolLookup.Symbol, undefinedName: string)
      requires Since(t0, tables.View()) && Finite(database, universe) && !(name != "" && name[0] == '.')
      modifies tables
      ensures Since(t0, tables.View()) && Keeps(old(tables.filesByName), tables.filesByName) && tables.pendingFiles == old(tables.pendingFiles)
      ensures done || (rest <= scope && |rest| < |scope|)
      ensures done && !symbol.IsNull() ==> IsTried(name, scope, symbol.name) && IsFound(symbol, symbol.name, proto, dependencies)
      ensures Foreseeable(t0, proto, dependencies) ==>
                (Chopped(t0, name, scope, mode, proto, dependencies)
                 == if done then SymbolLookup.Lookup(symbol, undefinedName) else Chopped(t0, name, rest, mode, proto, dependencies))
      ensures QuietIn(database, old(tables.filesByName).Keys, name, scope) ==> Unmoved(old(tables.View()), old(tables.knownBadFiles))
      decreases Measure(universe, tables.pendingFiles, tables.View()), 9
    {
      var dotPos := SymbolLookup.LastDot(scope);
      if dotPos < 0 {
        QuietItself(database, tables.filesByName.Keys, name, scope);
        symbol := FindAgain(name, proto, dependencies, universe, t0);
        return true, "", symbol, "";
      }
      rest := scope[..dotPos];
      QuietWithin(database, tables.filesByName.Keys, name, scope, dotPos);
      done, symbol, undefinedName := TryWithin(rest, name, mode, proto, dependencies, universe, t0);
    }

    /** Looks for the first part of the name within the scope, and then for the whole name. */
    method TryWithin(scope: string, name: string, mode: SymbolLookup.ResolveMode, proto: FileProto, dependencies: set<string>,
                    ghost universe: set<string>, ghost t0: State)
      returns (done: bool, symbol: SymbolLookup.Symbol, undefinedName: string)
      requires Since(t0, tables.View()) && Finite(database, universe)
      modifies tables
      ensures Since(t0, tables.View()) && tables.pendingFiles == old(tables.pendingFiles)
      ensures Keeps(old(tables.filesByName), tables.filesByName)
      ensures done && !symbol.IsNull() ==> symbol.name == scope + "." + name && IsFound(symbol, symbol.name, proto, dependencies)
      ensures Foreseeable(t0, proto, dependencies) ==>
                (RoundOn(t0, scope, name, mode, proto, dependencies)
                 == if done then SymbolLookup.Answer(SymbolLookup.Lookup(symbol, undefinedName)) else SymbolLookup.GoOn)
      ensures Quiet(database, old(tables.filesByName).Keys, scope + "." + SymbolLookup.FirstPart(name)) ==>
                Quiet(database, old(tables.filesByName).Keys, scope + "." + name) ==> Unmoved(old(tables.View()), old(tables.knownBadFiles))
      decreases Measure(universe, tables.pendingFiles, tables.View()), 8
    {
      ghost var before := tables.View();
      RoundMeans(t0, scope, name, mode, proto, dependencies);
      undefinedName := "";
      var firstPartOfName := SymbolLookup.FirstPart(name);
      var tried := scope + "." + firstPartOfName;
      symbol := FindAgain(tried, proto, dependencies, universe, t0);
      if symbol.IsNull() {
        return false, symbol, undefinedName;
      }
      if |firstPartOfName| < |name| {
        if !symbol.IsAggregate() {
          return false, symbol, undefinedName;
        }
        SymbolLookup.WholeName(scope, name);
        MeasureNotLarger(universe, tables.pendingFiles, before, tables.View());
        symbol, undefinedName := FindWhole(tried + name[|firstPartOfName|..], proto, dependencies, universe, t0);
        return true, symbol, undefinedName;
      }
      return !(mode == SymbolLookup.LOOKUP_TYPES && !symbol.IsType()), symbol, undefinedName;
    }

    /** One round of the lookup, on the tables t. */
    ghost function RoundOn(t: State, scope: string, name: string, mode: SymbolLookup.ResolveMode, proto: FileProto,
                           dependencies: set<string>): SymbolLookup.Round
    {
      SymbolLookup.TryScope(Finder(t, proto, dependencies, enforceDependencies), scope, SymbolLookup.FirstPart(name), name, mode)
    }

    lemma RoundMeans(t: State, scope: string, name: string, mode: SymbolLookup.ResolveMode, proto: FileProto, dependencies: set<string>)
      ensures var first := FoundIn(t, scope + "." + SymbolLookup.FirstPart(name), proto, dependencies, enforceDependencies);
              var whole := FoundIn(t, scope + "." + name, proto, dependencies, enforceDependencies);
              RoundOn(t, scope, name, mode, proto, dependencies)
              == if first.IsNull() then SymbolLookup.GoOn
                 else if |SymbolLookup.FirstPart(name)| < |name| then
                   (if first.IsAggregate()
                    then SymbolLookup.Answer(SymbolLookup.Lookup(whole, if whole.IsNull() then scope + "." + name else ""))
                    else SymbolLookup.GoOn)
                 else if mode == SymbolLookup.LOOKUP_TYPES && !first.IsType() then SymbolLookup.GoOn
                 else SymbolLookup.Answer(SymbolLookup.Lookup(first, ""))
    {
      SymbolLookup.WholeName(scope, name);
    }

    /** What the tables have become since t0; without a database they are the same. */
    ghost predicate Since(t0: State, t: State) {
      KeysLive(t) && Grown(t0, t) && (database.None? ==> t == t0)
    }

    ghost predicate IsFound(symbol: SymbolLookup.Symbol, name: string, proto: FileProto, dependencies: set<string>)
      reads this, tables
    {
      symbol == FoundIn(tables.View(), name, proto, dependencies, enforceDependencies)
    }

    lemma SinceIsSame(t0: State, t: State, proto: FileProto, dependencies: set<string>)
      requires Since(t0, t)
      ensures SameForFile(t0, t, proto, dependencies)
    {
      if database.Some? && Foreseeable(t0, proto, dependencies) {
        LoadingFindsNothingNew(t0, t, proto, dependencies);
      }
    }

    method FindWhole(fullName: string, proto: FileProto, dependencies: set<string>, ghost universe: set<string>, ghost t0: State)
      returns (symbol: SymbolLookup.Symbol, undefinedName: string)
      requires Since(t0, tables.View()) && Finite(database, universe)
      modifies tables
      ensures Since(t0, tables.View()) && tables.pendingFiles == old(tables.pendingFiles)
      ensures Keeps(old(tables.filesByName), tables.filesByName)
      ensures undefinedName == if symbol.IsNull() then fullName else ""
      ensures !symbol.IsNull() ==> symbol.name == fullName && IsFound(symbol, fullName, proto, dependencies)
      ensures Foreseeable(t0, proto, dependencies) ==> symbol == FoundIn(t0, fullName, proto, dependencies, enforceDependencies)
      ensures Quiet(database, old(tables.filesByName).Keys, fullName) ==> Unmoved(old(tables.View()), old(tables.knownBadFiles))
      decreases Measure(universe, tables.pendingFiles, tables.View()), 7
    {
      symbol := FindAgain(fullName, proto, dependencies, universe, t0);
      undefinedName := if symbol.IsNull() then fullName else "";
    }

    /** FindSymbol in the middle of a lookup. */
    method FindAgain(name: string, proto: FileProto, dependencies: set<string>, ghost universe: set<string>, ghost t0: State)
      returns (symbol: SymbolLookup.Symbol)
      requires Since(t0, tables.View()) && Finite(database, universe)
      modifies tables
      ensures Since(t0, tables.View()) && tables.pendingFiles == old(tables.pendingFiles)
      ensures Keeps(old(tables.filesByName), tables.filesByName)
      ensures !symbol.IsNull() ==> symbol.name == name && IsFound(symbol, name, proto, dependencies)
      ensures Foreseeable(t0, proto, dependencies) ==> symbol == FoundIn(t0, name, proto, dependencies, enforceDependencies)
      ensures Quiet(database, old(tables.filesByName).Keys, name) ==> Unmoved(old(tables.View()), old(tables.knownBadFiles))
      decreases Measure(universe, tables.pendingFiles, tables.View()), 6
    {
      ghost var t := tables.View();
      SinceIsSame(t0, t, proto, dependencies);
      symbol := FindSymbol(name, proto, dependencies, universe);
      GrownTransitive(t0, t, tables.View());
    }

    /** Finds a symbol that this file may use, loading its file if need be. */
    method FindSymbol(name: string, proto: FileProto, dependencies: set<string>, ghost universe: set<string>)
      returns (symbol: SymbolLookup.Symbol)
      requires KeysLive(tables.View()) && Finite(database, universe)
      modifies tables
      ensures Grown(old(tables.View()), tables.View()) && tables.pendingFiles == old(tables.pendingFiles)
      ensures database.None? ==> tables.View() == old(tables.View())
      ensures symbol.IsNull() || IsFound(symbol, name, proto, dependencies)
      ensures name in old(tables.symbolsByName) ==> tables.View() == old(tables.View()) && IsFound(symbol, name, proto, dependencies)
      ensures Foreseeable(old(tables.View()), proto, dependencies) ==>
                symbol == FoundIn(old(tables.View()), name, proto, dependencies, enforceDependencies)
      ensures Quiet(database, old(tables.filesByName).Keys, name) ==> Unmoved(old(tables.View()), old(tables.knownBadFiles))
      decreases Measure(universe, tables.pendingFiles, tables.View()), 5
    {
      ghost var t := tables.View();
      GrownReflexive(t);
      if name !in tables.symbolsByName {
        var loaded := TryFindSymbolInFallbackDatabase(name, universe, Anything);
        SinceIsSame(t, tables.View(), proto, dependencies);
        if !loaded || name !in tables.symbolsByName {
          return NOTHING;
        }
      }
      var usable := IsUsable(name, proto, dependencies);
      symbol := if usable then SymbolLookup.Symbol(tables.symbolsByName[name].value.kind, name) else NOTHING;
    }

    /** Only symbols of this file and of the files that it can see are found, unless the pool does not care. */
    method IsUsable(name: string, proto: FileProto, dependencies: set<string>) returns (usable: bool)
      requires name in tables.symbolsByName
      ensures usable <==> enforceDependencies ==>
                            CanUse(tables.symbolsByName[name].value, name, proto, dependencies, Values(tables.filesByName))
    {
      if !enforceDependencies {
        return true;
      }
      var result := tables.symbolsByName[name].value;
      if result.file == proto.name || result.file in dependencies {
        return true;
      }
      if result.IsPackage() {
        if SymbolNames.IsSubSymbol(name, proto.package) {
          return true;
        }
        if exists d :: d in dependencies && d in tables.filesByName
                       && SymbolNames.IsSubSymbol(name, tables.filesByName[d].value.package) {
          return true;
        }
      }
      return false;
    }

    /** The public entry point: whatever it loads, the loaded files keep importing only loaded files
        and never each other in a circle. */
    method FindFileByName(name: string, ghost universe: set<string>, ghost outlook: Outlook) returns (file: Option<FileDescriptor>)
      requires KeysLive(tables.View()) && AllFilesOk(tables.View()) && Finite(database, universe)
      requires name in tables.filesByName || CanExpect(outlook, name, tables.View(), tables.pendingFiles, {})
      modifies tables
      ensures Grown(old(tables.View()), tables.View()) && AllFilesOk(tables.View())
      ensures Settled(old(tables.symbolsByName), old(tables.filesByName), {}) ==> Settled(tables.symbolsByName, tables.filesByName, {})
      ensures name in old(tables.filesByName) ==> file.Some?
      ensures file.Some? ==> name in tables.filesByName && file.value == tables.filesByName[name].value
      ensures name !in old(tables.filesByName) && outlook.Nothing? ==> file == None && tables.View() == old(tables.View())
      ensures name !in old(tables.filesByName) && outlook.Decided? ==>
                database.Some? && database.value.byName(name).Some?
                && var proto := database.value.byName(name).value;
                   if proto.name == name then BuiltIff(file.Some?, proto, old(tables.View())) else name !in tables.filesByName ==> file == None
      ensures name !in old(tables.filesByName) && outlook.Planned? ==>
                LoadedOnPlan(outlook.plan, name, old(tables.View()), tables.View())
                && database.Some? && database.value.byName(name).Some? && file == Some(Descriptor(database.value.byName(name).value))
    {
      tables.knownBadFiles, tables.knownBadSymbols := {}, {};
      ghost var t0 := tables.View();
      GrownReflexive(t0);
      if name in tables.filesByName {
        return Some(tables.filesByName[name].value);
      }
      var loaded := TryFindFileInFallbackDatabase(name, universe, outlook);
      AllFilesOkStays(t0, tables.View());
      if outlook.Planned? {
        LoadedIsMember(outlook.plan, database, enforceDependencies, name, t0, tables.View(), tables.pendingFiles, {});
      }
      if loaded && name in tables.filesByName {
        return Some(tables.filesByName[name].value);
      }
      return None;
    }

    /** Why the files of a plan must not make the database load others by symbol: such a file r can import
        one that is still under way, q. Then r is known to be bad, and it is refused for the rest of the
        call although it could be built once q is there. These are the steps in the order in which a
        file that q imports, q itself, and a file that imports both take them. */
    method LookupSpoilsLoading(q: FileProto, r: FileProto, x: string, ghost pending: seq<string>, ghost universe: set<string>)
      returns (ok: bool)
      requires KeysLive(tables.View()) && Finite(database, universe) && q.name in universe
      requires database.Some? && database.value.bySymbol(x) == Some(r) && database.value.byName(r.name) == Some(r)
               && database.value.byName(q.name) == Some(q)
      requires Plain(q) && q.dependencies == [] && Plain(r) && r.dependencies == [q.name] && q.name != r.name
      requires q.name !in tables.filesByName && r.name !in tables.filesByName
      requires tables.pendingFiles == pending + [q.name] && q.name !in Elements(pending) && r.name !in Elements(tables.pendingFiles)
      requires r.name !in tables.knownBadFiles && q.name !in tables.knownBadFiles && x !in tables.knownBadSymbols
      requires !HasBuiltParent(tables.symbolsByName, x)
      modifies tables
      ensures !ok && q.name in tables.filesByName && r.name !in tables.filesByName
      ensures CanBuild(tables.symbolsByName, tables.filesByName, r, enforceDependencies)
    {
      ghost var t := tables.View();
      UnderwayCannotLoad(q, r, t, pending, tables.knownBadFiles);
      ok := TryFindSymbolInFallbackDatabase(x, universe, Decided);
      PopPending(pending, t, tables.knownBadFiles);
      PlainIsDecided(q, t, pending, tables.knownBadFiles);
      var file := BuildFile(q, universe, Decided);
      OnlyOneAdded(t, tables.View(), q);
      OneImportIsEnough(q, r, tables.View());
      ok := TryFindFileInFallbackDatabase(r.name, universe, Nothing);
    }

    lemma OnlyOneAdded(t: State, t': State, proto: FileProto)
      requires Adds(t, t', proto)
      ensures forall f :: f in t'.files <==> f in t.files || f == proto.name
    {
      forall f
        ensures f in t'.files <==> f in t.files || f == proto.name
      {
        assert f in Values(t'.files) <==> f in FilesAfter(t.files, proto);
      }
    }

    lemma PlainIsDecided(q: FileProto, t: State, pending: seq<string>, bad: set<string>)
      requires Plain(q) && q.dependencies == [] && q.name !in t.files && q.name !in Elements(pending)
      ensures IsDecided(q, t, pending, bad) && CanBuild(t.symbols, t.files, q, enforceDependencies)
      ensures QuietFile(database, t.files.Keys + {q.name}, q)
    {
    }

    lemma OneImportIsEnough(q: FileProto, r: FileProto, t: State)
      requires Plain(r) && r.dependencies == [q.name] && q.name in t.files && r.name !in t.files
      ensures CanBuild(t.symbols, t.files, r, enforceDependencies)
    {
    }

    lemma UnderwayCannotLoad(q: FileProto, r: FileProto, t: State, pending: seq<string>, bad: set<string>)
      requires database.Some? && database.value.byName(q.name) == Some(q) && Plain(r) && r.dependencies == [q.name] && q.name != r.name
      requires q.name !in t.files && r.name !in t.files && r.name !in Elements(pending + [q.name])
      ensures IsDecided(r, t, pending + [q.name], bad) && !CanBuild(t.symbols, t.files, r, enforceDependencies)
    {
      PushedIsPending(pending, q.name);
      ElementsOfConcat(pending + [q.name], [r.name]);
      assert CannotLoad(database, q.name, t.files.Keys, pending + [q.name] + [r.name], bad);
      assert r.dependencies[0] == q.name;
    }

    /** Whether the file is built can be told from the tables of before: it has no links, or they are
        foreseeable. */
    ghost predicate ForeseeableBuild(t: State, proto: FileProto, except: set<string>) {
      proto.links == [] || database.None? || (enforceDependencies && Settled(t.symbols, t.files, except))
    }

    /** Either the file is built and committed, or nothing in the tables has changed. */
    method BuildFileImpl(proto: FileProto, ghost universe: set<string>) returns (file: Option<FileDescriptor>)
      requires KeysLive(tables.View()) && Finite(database, universe) && proto.name in universe
      modifies tables
      ensures Grown(old(tables.View()), tables.View()) && tables.pendingFiles == old(tables.pendingFiles)
      ensures file == None ==> tables.View() == old(tables.View())
      ensures file.Some? ==> proto.name !in old(tables.filesByName) && proto.name in tables.filesByName
                             && tables.filesByName[proto.name].value == file.value && file.value == Descriptor(proto)
      ensures file.Some? ==> Defined(old(tables.extensions), tables.View(), proto)
      ensures ForeseeableBuild(old(tables.View()), proto, {}) ==>
                (file.Some? <==> CanBuild(old(tables.symbolsByName), old(tables.filesByName), proto, enforceDependencies))
      ensures QuietFile(database, old(tables.filesByName).Keys + {proto.name}, proto) ==>
                tables.knownBadFiles == old(tables.knownBadFiles) && (file.Some? ==> Adds(old(tables.View()), tables.View(), proto))
      decreases Measure(universe, tables.pendingFiles, tables.View()), 1, 0
    {
      ghost var t0 := tables.View();
      tables.AddCheckpoint();
      var ok, result := BuildAfterCheckpoint(proto, universe);
      if ok {
        Commit(proto, t0);
        file := Some(result);
      } else {
        Abandon(proto, t0);
        file := None;
      }
    }

    method Commit(proto: FileProto, ghost t0: State)
      requires KeysLive(t0) && InBuild(AddCheckpointSpec(t0), tables.View(), proto.name)
      requires proto.name !in t0.files && proto.name in tables.filesByName && |t0.strings| <= tables.filesByName[proto.name].key
      requires FileOk(tables.View(), proto.name) && Defined(t0.extensions, tables.View(), proto)
      requires Settled(t0.symbols, t0.files, {}) ==> Settled(tables.symbolsByName, tables.filesByName, {})
      modifies tables
      ensures Grown(t0, tables.View()) && Defined(t0.extensions, tables.View(), proto)
      ensures tables.symbolsByName == old(tables.symbolsByName)
      ensures tables.filesByName == old(tables.filesByName) && tables.pendingFiles == old(tables.pendingFiles) && tables.knownBadFiles == old(tables.knownBadFiles)
    {
      BuildCommits(t0, tables.View(), proto.name);
      CommitKeepsDefined(t0.extensions, tables.View(), proto);
      tables.ClearLastCheckpoint();
    }

    method Abandon(proto: FileProto, ghost t0: State)
      requires KeysLive(t0) && InBuild(AddCheckpointSpec(t0), tables.View(), proto.name)
      modifies tables
      ensures tables.View() == t0 && Grown(t0, t0) && tables.pendingFiles == old(tables.pendingFiles) && tables.knownBadFiles == old(tables.knownBadFiles)
    {
      GrownReflexive(t0);
      RollbackRestores(t0, tables.View());
      tables.RollbackToLastCheckpoint();
    }

    /** Enters the file and builds what is in it; ok tells whether it stays. */
    method BuildAfterCheckpoint(proto: FileProto, ghost universe: set<string>) returns (ok: bool, result: FileDescriptor)
      requires KeysLive(tables.View()) && tables.checkpoints != [] && Finite(database, universe) && proto.name in universe
      modifies tables
      ensures InBuild(old(tables.View()), tables.View(), proto.name) && tables.pendingFiles == old(tables.pendingFiles)
      ensures result == Descriptor(proto)
      ensures ok ==> proto.name !in old(tables.filesByName) && proto.name in tables.filesByName
                     && tables.filesByName[proto.name].value == result && |old(tables.strings)| <= tables.filesByName[proto.name].key
      ensures ok ==> FileOk(tables.View(), proto.name) && Defined(old(tables.extensions), tables.View(), proto)
      ensures ok && Settled(old(tables.symbolsByName), old(tables.filesByName), {}) ==> Settled(tables.symbolsByName, tables.filesByName, {})
      ensures ForeseeableBuild(old(tables.View()), proto, {}) ==>
                (ok <==> CanBuild(old(tables.symbolsByName), old(tables.filesByName), proto, enforceDependencies))
      ensures QuietFile(database, old(tables.filesByName).Keys + {proto.name}, proto) ==>
                tables.knownBadFiles == old(tables.knownBadFiles) && (ok ==> Adds(old(tables.View()), tables.View(), proto))
      decreases Measure(universe, tables.pendingFiles, tables.View()), 0
    {
      ghost var start := tables.View();
      var publicDependencies, publicOk := ValidPublic(proto);
      result := FileDescriptor(proto.name, proto.package, proto.dependencies, publicDependencies);
      var added, package := DeclareFile(proto, result);
      if !added {
        return false, result;
      }
      NewestFile(start, tables.filesByName, proto.name, result);
      SettledWithFile(start, tables.filesByName, proto.name, result);
      MeasureAfterAddFile(universe, tables.pendingFiles, start, tables.View(), proto.name);
      ImportsOfNewFile(start, tables.filesByName, proto, enforceDependencies);
      ghost var files := tables.filesByName;
      var hadErrors := BuildContents(proto, package, !publicOk, start, universe);
      ok := !hadErrors;
      if ok && QuietFile(database, files.Keys, proto) {
        EnteredAdds(start, files, tables.View(), proto);
      }
    }

    /** Right after the checkpoint: allocate the descriptor and its strings and enter the file. */
    method DeclareFile(proto: FileProto, result: FileDescriptor) returns (added: bool, package: nat)
      requires KeysLive(tables.View()) && tables.checkpoints != []
      modifies tables
      ensures InBuild(old(tables.View()), tables.View(), proto.name) && tables.pendingFiles == old(tables.pendingFiles) && tables.knownBadFiles == old(tables.knownBadFiles)
      ensures package < |tables.strings| && tables.strings[package] == proto.package
      ensures added <==> proto.name !in old(tables.filesByName)
      ensures tables.symbolsByName == old(tables.symbolsByName) && tables.extensions == old(tables.extensions)
      ensures added ==> HasNewFile(old(tables.View()), tables.filesByName, proto.name, result)
    {
      ghost var start := tables.View();
      var name;
      name, package := AllocateFile(proto);
      EnteringExtends(start, tables.View(), name, proto.name, result);
      added := tables.AddFile(name, result);
    }

    /** The descriptor, its tables and its two strings. */
    method AllocateFile(proto: FileProto) returns (name: nat, package: nat)
      requires KeysLive(tables.View())
      modifies tables`allocations, tables`fileTables, tables`strings
      ensures KeysLive(tables.View()) && Extends(old(tables.View()), tables.View())
      ensures |old(tables.strings)| <= name < |tables.strings| && tables.strings[name] == proto.name
      ensures package < |tables.strings| && tables.strings[package] == proto.package
    {
      tables.allocations := tables.allocations + 1;
      tables.fileTables := tables.fileTables + 1;
      name := tables.AllocateString(proto.name);
      package := tables.AllocateString(proto.package);
    }

    /** Everything between entering the file and deciding its fate. */
    method BuildContents(proto: FileProto, package: nat, publicErrors: bool, ghost start: State, ghost universe: set<string>)
      returns (hadErrors: bool)
      requires InBuild(start, tables.View(), proto.name) && Finite(database, universe)
      requires package < |tables.strings| && tables.strings[package] == proto.package
      requires proto.name in tables.filesByName && tables.filesByName[proto.name].value == Descriptor(proto)
      requires forall f :: f in tables.filesByName && f != proto.name ==>
                             tables.filesByName[f].key < tables.filesByName[proto.name].key
      requires start.extensions == tables.extensions
      modifies tables
      ensures InBuild(start, tables.View(), proto.name)
      ensures Keeps(old(tables.filesByName), tables.filesByName) && tables.pendingFiles == old(tables.pendingFiles)
      ensures !hadErrors ==> proto.name in tables.filesByName && FileOk(tables.View(), proto.name)
      ensures !hadErrors ==> Defined(old(tables.extensions), tables.View(), proto)
      ensures !hadErrors && Settled(old(tables.symbolsByName), old(tables.filesByName), {proto.name}) ==>
                Settled(tables.symbolsByName, tables.filesByName, {})
      ensures ForeseeableBuild(old(tables.View()), proto, {proto.name}) ==>
                (!hadErrors <==>
                 && !publicErrors && ImportsPresent(old(tables.filesByName), proto.dependencies) && CanDeclare(old(tables.symbolsByName), proto)
                 && AllLink(FinderAfter(old(tables.symbolsByName), Values(old(tables.filesByName)), proto, enforceDependencies),
                            proto.links, |proto.links|))
      ensures QuietFile(database, old(tables.filesByName).Keys, proto) ==>
                && tables.filesByName == old(tables.filesByName) && tables.knownBadFiles == old(tables.knownBadFiles)
                && (!hadErrors ==> DeclaredAs(old(tables.symbolsByName), tables.symbolsByName, proto))
      decreases Measure(universe, tables.pendingFiles, tables.View()), 18
    {
      ghost var t := tables.View();
      var dependencies;
      hadErrors, dependencies := DeclareContents(proto, package, publicErrors, start);
      ghost var v, declared := tables.View(), !hadErrors;
      MeasureNotLarger(universe, tables.pendingFiles, t, v);
      var fields;
      hadErrors, fields := CrossLinkFile(proto, hadErrors, dependencies, start, universe);
      if declared {
        ResolvesAsForetold(t, v, proto, enforceDependencies);
      }
      if !hadErrors {
        FileOkStays(t, tables.View(), proto.name);
        DefinedStays(v, tables.View(), proto);
      }
    }

    /** The part that loads no other file: the package, the imports and the symbols. */
    method DeclareContents(proto: FileProto, package: nat, publicErrors: bool, ghost start: State)
      returns (hadErrors: bool, dependencies: set<string>)
      requires InBuild(start, tables.View(), proto.name)
      requires package < |tables.strings| && tables.strings[package] == proto.package
      requires proto.name in tables.filesByName && tables.filesByName[proto.name].value == Descriptor(proto)
      requires forall f :: f in tables.filesByName && f != proto.name ==>
                             tables.filesByName[f].key < tables.filesByName[proto.name].key
      modifies tables
      ensures InBuild(start, tables.View(), proto.name)
      ensures tables.filesByName == old(tables.filesByName) && tables.pendingFiles == old(tables.pendingFiles) && tables.knownBadFiles == old(tables.knownBadFiles)
      ensures tables.extensions == old(tables.extensions)
      ensures !hadErrors ==> FileOk(old(tables.View()), proto.name)
      ensures !hadErrors ==> PackageDeclared(tables.symbolsByName, proto.package) && SymbolsDefined(tables.View(), proto, |proto.symbols|)
      ensures hadErrors <==>
              publicErrors || !ImportsPresent(old(tables.filesByName), proto.dependencies) || !CanDeclare(old(tables.symbolsByName), proto)
      ensures dependencies == VisibleSet(Values(tables.filesByName), proto.dependencies) && dependencies <= tables.filesByName.Keys
      ensures !hadErrors ==> DeclaredAs(old(tables.symbolsByName), tables.symbolsByName, proto)
      ensures !hadErrors && Settled(old(tables.symbolsByName), old(tables.filesByName), {proto.name}) ==>
                Settled(tables.symbolsByName, tables.filesByName, {})
    {
      ghost var t := tables.View();
      var packageErrors := DeclarePackage(proto, package, start);
      hadErrors := publicErrors || packageErrors;
      ghost var p := tables.symbolsByName;
      var depsOk, direct := CheckDependencies(proto);
      hadErrors := hadErrors || !depsOk;
      dependencies := VisibleFiles(direct, proto.dependencies);
      GoodAfterPackage(t.symbols, p, proto.package, proto.symbols);
      hadErrors := AddSymbols(proto, hadErrors, start);
      DeclaredInTwoSteps(t.symbols, p, tables.symbolsByName, proto);
      if !hadErrors && Settled(p, tables.filesByName, {proto.name}) {
        SettledWithSymbols(p, tables.symbolsByName, tables.filesByName, proto);
      }
    }

    /** Declares the package of the file, if it has one. */
    method DeclarePackage(proto: FileProto, package: nat, ghost start: State) returns (error: bool)
      requires InBuild(start, tables.View(), proto.name)
      requires package < |tables.strings| && tables.strings[package] == proto.package
      modifies tables
      ensures InBuild(start, tables.View(), proto.name)
      ensures tables.filesByName == old(tables.filesByName) && tables.pendingFiles == old(tables.pendingFiles) && tables.knownBadFiles == old(tables.knownBadFiles)
      ensures tables.extensions == old(tables.extensions)
      ensures Keeps(old(tables.symbolsByName), tables.symbolsByName)
      ensures !error ==> PackageDeclared(tables.symbolsByName, proto.package)
      ensures error <==> proto.package != "" && !PackageOk(old(tables.symbolsByName), proto.package)
      ensures forall x {:trigger Taken(old(tables.symbolsByName), proto.package, x)} ::
                x in tables.symbolsByName <==> Taken(old(tables.symbolsByName), proto.package, x)
      ensures NewArePackages(old(tables.symbolsByName), tables.symbolsByName, proto.name)
      ensures !error && Settled(old(tables.symbolsByName), tables.filesByName, {proto.name}) ==>
                Settled(tables.symbolsByName, tables.filesByName, {proto.name})
    {
      error := false;
      if proto.package != "" {
        ghost var symbols := tables.symbolsByName;
        error := AddPackage(proto.package, package, proto.name, start);
        if !error && Settled(symbols, tables.filesByName, {proto.name}) {
          SettledWithPackage(symbols, tables.symbolsByName, tables.filesByName, {proto.name});
        }
      }
    }
  }
}
