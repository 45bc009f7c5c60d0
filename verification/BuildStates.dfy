/** Protos, the fallback database, and what the building of files does to the descriptor tables. */
module BuildStates {
  import opened Options
  import opened DescriptorTables
  import PublicDependencies
  import SymbolLookup
  import SymbolNames

  /** A name to be resolved in a scope, and the kinds of symbol that will do. */
  datatype Target = Target(name: string, relativeTo: string, mode: SymbolLookup.ResolveMode, wanted: set<SymbolLookup.SymbolType>)

  /** What CrossLinkFile meets in a file, in order. A field belongs to a message of the file, an
      extension to whatever its extendee resolves to; either may have a type to resolve. */
  datatype CrossLink =
    | Reference(target: Target)
    | Field(message: string, number: int, fieldType: Option<Target>)
    | Extension(extendee: Target, number: int, fieldType: Option<Target>, field: string)

  /** Something a file declares, by its own name, in the package or in another symbol. */
  datatype Declared = Declared(scope: string, name: string)

  function FullName(declared: Declared): string {
    if declared.scope == "" then declared.name else declared.scope + "." + declared.name
  }

  datatype FileProto = FileProto(name: string, package: string, dependencies: seq<string>,
                                 publicDependencies: seq<int>, symbols: seq<Declared>, kindOf: string -> Kind,
                                 links: seq<CrossLink>)

  /** What a file can define. */
  type Kind = k: SymbolLookup.SymbolType | k != SymbolLookup.NULL_SYMBOL && k != SymbolLookup.PACKAGE witness SymbolLookup.MESSAGE

  /** The fallback database; bySymbol may answer with a file that does not have the symbol. */
  datatype Database = Database(byName: string -> Option<FileProto>, bySymbol: string -> Option<FileProto>)

  /** All files the database can return have their names in a finite set. */
  ghost predicate Finite(db: Option<Database>, universe: set<string>) {
    db.Some? ==>
      && (forall n :: db.value.byName(n).Some? ==> db.value.byName(n).value.name in universe)
      && (forall n :: db.value.bySymbol(n).Some? ==> db.value.bySymbol(n).value.name in universe)
  }

  // ----- How the tables change over calls -----

  ghost predicate Keeps<K, V>(m: map<K, V>, m': map<K, V>) {
    forall k :: k in m ==> k in m' && m'[k] == m[k]
  }

  /** Every import of the file is loaded, and was so before the file, unless it is the file itself. */
  ghost predicate FileOk(t: State, f: string)
    requires f in t.files
  {
    forall i :: 0 <= i < |t.files[f].value.dependencies| ==>
      var d := t.files[f].value.dependencies[i];
      d in t.files && (d == f || t.files[d].key < t.files[f].key)
  }

  ghost predicate NewFilesOk(t: State, t': State, except: set<string>) {
    forall f :: f in t'.files && f !in t.files && f !in except ==> |t.strings| <= t'.files[f].key && FileOk(t', f)
  }

  /** A new symbol belongs to a file of own or to one that was not loaded before. */
  ghost predicate NewSymbolsFrom(t: State, t': State, own: set<string>) {
    forall x :: x in t'.symbols && x !in t.symbols ==> t'.symbols[x].value.file in own || t'.symbols[x].value.file !in t.files
  }

  /** So does a new extension. */
  ghost predicate NewExtensionsFrom(t: State, t': State, own: set<string>) {
    forall k :: k in t'.extensions && k !in t.extensions ==> t'.extensions[k].file in own || t'.extensions[k].file !in t.files
  }

  /** If the name is a package then it is not empty and its parent is a package. */
  predicate ProperAt(symbols: map<string, Keyed<Symbol>>, x: string) {
    x in symbols && symbols[x].value.IsPackage() ==>
      x != "" && (SymbolLookup.LastDot(x) >= 0 ==> IsPackageIn(symbols, x[..SymbolLookup.LastDot(x)]))
  }

  predicate IsPackageIn(symbols: map<string, Keyed<Symbol>>, x: string) {
    x in symbols && symbols[x].value.IsPackage()
  }

  /** The state of the tables between builds: packages come with their parents, and the package of
      every file is declared, except for the files that are still being built. */
  ghost predicate Settled(symbols: map<string, Keyed<Symbol>>, files: map<string, Keyed<FileDescriptor>>, except: set<string>) {
    && (forall x {:trigger ProperAt(symbols, x)} :: ProperAt(symbols, x))
    && (forall f {:trigger PackageDeclared(symbols, files[f].value.package)} ::
          f in files && f !in except ==> PackageDeclared(symbols, files[f].value.package))
  }

  ghost predicate PackageDeclared(symbols: map<string, Keyed<Symbol>>, package: string) {
    package != "" ==> IsPackageIn(symbols, package)
  }

  ghost predicate AllFilesOk(t: State) {
    forall f :: f in t.files ==> FileOk(t, f)
  }

  ghost predicate Grown(t: State, t': State) {
    && KeysLive(t')
    && t'.checkpoints == t.checkpoints
    && t.strings <= t'.strings
    && Keeps(t.symbols, t'.symbols) && Keeps(t.files, t'.files) && Keeps(t.extensions, t'.extensions)
    && (t.checkpoints != [] ==> Extends(t, t'))
    && NewFilesOk(t, t', {}) && NewSymbolsFrom(t, t', {}) && NewExtensionsFrom(t, t', {})
    && (Settled(t.symbols, t.files, {}) ==> Settled(t'.symbols, t'.files, {}))
  }

  lemma GrownReflexive(t: State)
    requires KeysLive(t)
    ensures Grown(t, t)
  {
  }

  lemma FileOkStays(t: State, t': State, f: string)
    requires Keeps(t.files, t'.files) && f in t.files && FileOk(t, f)
    ensures FileOk(t', f)
  {
  }

  lemma NewFilesOkTransitive(t: State, u: State, v: State, except: set<string>)
    requires NewFilesOk(t, u, except) && NewFilesOk(u, v, {})
    requires t.strings <= u.strings && Keeps(u.files, v.files)
    ensures NewFilesOk(t, v, except)
  {
    forall f | f in v.files && f !in t.files && f !in except
      ensures |t.strings| <= v.files[f].key && FileOk(v, f)
    {
      if f in u.files {
        FileOkStays(u, v, f);
      }
    }
  }

  lemma NewSymbolsTransitive(t: State, u: State, v: State, own: set<string>)
    requires NewSymbolsFrom(t, u, own) && NewSymbolsFrom(u, v, own)
    requires NewExtensionsFrom(t, u, own) && NewExtensionsFrom(u, v, own) && Keeps(u.extensions, v.extensions)
    requires Keeps(t.files, u.files) && Keeps(u.symbols, v.symbols)
    ensures NewSymbolsFrom(t, v, own) && NewExtensionsFrom(t, v, own)
  {
  }

  lemma GrownTransitive(t: State, u: State, v: State)
    requires Grown(t, u) && Grown(u, v)
    ensures Grown(t, v)
  {
    NewFilesOkTransitive(t, u, v, {});
    NewSymbolsTransitive(t, u, v, {});
    if t.checkpoints != [] {
      ExtendsTransitive(t, u, v);
    }
  }

  lemma ExtendsKeeps(t: State, t': State)
    requires Extends(t, t')
    ensures Keeps(t.symbols, t'.symbols) && Keeps(t.files, t'.files) && Keeps(t.extensions, t'.extensions)
  {
  }

  /** Loading never spoils what is loaded. */
  lemma AllFilesOkStays(t: State, t': State)
    requires AllFilesOk(t) && Grown(t, t')
    ensures AllFilesOk(t')
  {
    forall f | f in t'.files
      ensures FileOk(t', f)
    {
      if f in t.files {
        FileOkStays(t, t', f);
      }
    }
  }

  ghost predicate ImportChain(t: State, p: seq<string>) {
    && p != []
    && (forall i :: 0 <= i < |p| ==> p[i] in t.files)
    && (forall i :: 0 <= i < |p| - 1 ==> p[i + 1] in t.files[p[i]].value.dependencies)
  }

  lemma {:induction false} ImportsDescend(t: State, p: seq<string>)
    requires AllFilesOk(t) && ImportChain(t, p)
    ensures t.files[p[|p| - 1]].key <= t.files[p[0]].key
    ensures t.files[p[|p| - 1]].key == t.files[p[0]].key ==> forall i :: 0 <= i < |p| ==> p[i] == p[0]
    decreases |p|
  {
    if |p| > 1 {
      assert FileOk(t, p[0]);
      ImportsDescend(t, p[1..]);
      if t.files[p[|p| - 1]].key == t.files[p[0]].key {
        forall i | 0 < i < |p|
          ensures p[i] == p[0]
        {
          assert p[1..][i - 1] == p[i];
        }
      }
    }
  }

  /** The loaded files never import each other in a circle; only a file that imports itself can. */
  lemma NoImportCycles(t: State, p: seq<string>)
    requires AllFilesOk(t) && ImportChain(t, p) && p[|p| - 1] == p[0]
    ensures forall i :: 0 <= i < |p| ==> p[i] == p[0]
  {
    ImportsDescend(t, p);
  }

  // ----- The recursion's measure -----

  lemma SubsetIsSmaller(a: set<string>, b: set<string>)
    requires a <= b
    ensures |a| <= |b|
    ensures a != b ==> |a| < |b|
  {
    assert b == a + (b - a);
    assert |b| == |a| + |b - a|;
    if a != b {
      assert b - a != {};
    }
  }

  /** Names not yet pending plus names not yet loaded. */
  ghost function Measure(universe: set<string>, pending: seq<string>, t: State): nat {
    |universe - Elements(pending)| + |universe - t.files.Keys|
  }

  lemma MeasureNotLarger(universe: set<string>, pending: seq<string>, t: State, t': State)
    requires Keeps(t.files, t'.files)
    ensures Measure(universe, pending, t') <= Measure(universe, pending, t)
  {
    SubsetIsSmaller(universe - t'.files.Keys, universe - t.files.Keys);
  }

  lemma MeasureAfterPush(universe: set<string>, pending: seq<string>, t: State, t': State, name: string)
    requires Keeps(t.files, t'.files) && name in universe && name !in Elements(pending)
    ensures Measure(universe, pending + [name], t') < Measure(universe, pending, t)
  {
    ElementsOfConcat(pending, [name]);
    assert [name][0] == name;
    assert name in (universe - Elements(pending)) && name !in (universe - Elements(pending + [name]));
    SubsetIsSmaller(universe - Elements(pending + [name]), universe - Elements(pending));
    MeasureNotLarger(universe, pending + [name], t, t');
  }

  lemma PushedIsPending(pending: seq<string>, name: string)
    ensures name in Elements(pending + [name])
  {
    assert (pending + [name])[|pending|] == name;
  }

  lemma MeasureAfterAddFile(universe: set<string>, pending: seq<string>, t: State, t': State, name: string)
    requires Keeps(t.files, t'.files) && name in universe && name !in t.files && name in t'.files
    ensures Measure(universe, pending, t') < Measure(universe, pending, t)
  {
    assert name in (universe - t.files.Keys) && name !in (universe - t'.files.Keys);
    SubsetIsSmaller(universe - t'.files.Keys, universe - t.files.Keys);
  }

  // ----- A build in progress -----

  /** start is the state right after the checkpoint; file is the file being built. */
  ghost predicate InBuild(start: State, t: State, file: string) {
    && start.checkpoints != []
    && KeysLive(t) && Extends(start, t)
    && NewFilesOk(start, t, {file}) && NewSymbolsFrom(start, t, {file}) && NewExtensionsFrom(start, t, {file})
  }

  lemma InBuildGrows(start: State, t: State, t': State, file: string)
    requires InBuild(start, t, file) && Grown(t, t')
    ensures InBuild(start, t', file)
  {
    ExtendsTransitive(start, t, t');
    ExtendsKeeps(start, t);
    NewFilesOkTransitive(start, t, t', {file});
    NewSymbolsTransitive(start, t, t', {file});
  }

  /** A step that extends the tables without adding a file. */
  lemma InBuildExtends(start: State, t: State, t': State, file: string)
    requires InBuild(start, t, file) && KeysLive(t') && Extends(t, t') && t'.files == t.files
    requires NewSymbolsFrom(t, t', {file}) && NewExtensionsFrom(t, t', {file})
    ensures InBuild(start, t', file)
  {
    ExtendsTransitive(start, t, t');
    ExtendsKeeps(start, t);
    ExtendsKeeps(t, t');
    NewFilesOkTransitive(start, t, t', {file});
    NewSymbolsTransitive(start, t, t', {file});
  }

  lemma EnteringExtends(start: State, t: State, name: nat, file: string, descriptor: FileDescriptor)
    requires start.checkpoints != [] && KeysLive(start) && KeysLive(t) && Extends(start, t)
    requires t.files == start.files && t.symbols == start.symbols && t.extensions == start.extensions && |start.strings| <= name < |t.strings| && t.strings[name] == file
    ensures InBuild(start, AddFileSpec(t, name, descriptor).1, file)
  {
    AddFileExtends(t, name, descriptor);
    ExtendsTransitive(start, t, AddFileSpec(t, name, descriptor).1);
  }

  lemma BuildCommits(t0: State, t: State, file: string)
    requires KeysLive(t0) && InBuild(AddCheckpointSpec(t0), t, file)
    requires file in t.files && FileOk(t, file) && |t0.strings| <= t.files[file].key && file !in t0.files
    requires Settled(t0.symbols, t0.files, {}) ==> Settled(t.symbols, t.files, {})
    ensures Grown(t0, ClearLastCheckpointSpec(t))
  {
    ExtendsKeeps(AddCheckpointSpec(t0), t);
    var t' := ClearLastCheckpointSpec(t);
    assert t.checkpoints[..|t.checkpoints| - 1] == t0.checkpoints;
    if t0.checkpoints != [] {
      InnerCommitExtends(t0, t);
    }
    forall f | f in t'.files && f !in t0.files
      ensures |t0.strings| <= t'.files[f].key && FileOk(t', f)
    {
      assert FileOk(t, f);
    }
  }

  /** A proto without package, symbols and links, and with valid public imports. */
  predicate Plain(proto: FileProto) {
    && proto.package == "" && proto.symbols == [] && proto.links == []
    && (forall i :: 0 <= i < |proto.publicDependencies| ==> 0 <= proto.publicDependencies[i] < |proto.dependencies|)
  }

  predicate ValidIdentifier(name: string) {
    name != "" && forall i :: 0 <= i < |name| ==>
      'a' <= name[i] <= 'z' || 'A' <= name[i] <= 'Z' || '0' <= name[i] <= '9' || name[i] == '_'
  }

  /** The last component of a full name is the symbol's own name, in the scope. */
  lemma FullNameIsInScope(declared: Declared)
    requires ValidIdentifier(declared.name)
    ensures SymbolLookup.Components(FullName(declared))
         == (if declared.scope == "" then [] else SymbolLookup.Components(declared.scope)) + [declared.name]
  {
    if declared.scope != "" {
      SymbolLookup.ComponentsOfConcat(declared.scope, declared.name, FullName(declared));
    }
  }

  predicate IsPart(s: string) {
    s == "" || ValidIdentifier(s)
  }

  lemma ValidNameSplits(a: string, b: string)
    ensures SymbolNames.ValidName(a + "." + b) <==> SymbolNames.ValidName(a) && SymbolNames.ValidName(b)
  {
    var s := a + "." + b;
    assert s[|a|] == '.' && forall i :: 0 <= i < |a| ==> s[i] == a[i];
    assert forall i :: 0 <= i < |b| ==> s[|a| + 1 + i] == b[i];
  }

  lemma ValidPartIsIdentifier(s: string)
    requires SymbolLookup.DotFree(s)
    ensures SymbolNames.ValidName(s) <==> IsPart(s)
  {
  }

  ghost predicate AreParts(parts: seq<string>) {
    forall i :: 0 <= i < |parts| ==> IsPart(parts[i])
  }

  lemma OneMorePart(parts: seq<string>, last: string)
    ensures AreParts(parts + [last]) <==> AreParts(parts) && IsPart(last)
  {
    assert (parts + [last])[|parts|] == last;
    assert forall i :: 0 <= i < |parts| ==> (parts + [last])[i] == parts[i];
  }

  lemma ValidNameStep(name: string)
    ensures var dot := SymbolLookup.LastDot(name);
            if dot < 0 then SymbolNames.ValidName(name) <==> IsPart(name)
            else SymbolNames.ValidName(name) <==> SymbolNames.ValidName(name[..dot]) && IsPart(name[dot + 1..])
  {
    var dot := SymbolLookup.LastDot(name);
    if dot < 0 {
      ValidPartIsIdentifier(name);
    } else {
      ValidPartIsIdentifier(name[dot + 1..]);
      SymbolLookup.SplitAtDot(name, dot);
      ValidNameSplits(name[..dot], name[dot + 1..]);
    }
  }

  lemma PartsStep(name: string)
    ensures var dot := SymbolLookup.LastDot(name);
            if dot < 0 then AreParts(SymbolLookup.Components(name)) <==> IsPart(name)
            else AreParts(SymbolLookup.Components(name)) <==> AreParts(SymbolLookup.Components(name[..dot])) && IsPart(name[dot + 1..])
  {
    var dot := SymbolLookup.LastDot(name);
    if dot < 0 {
      assert SymbolLookup.Components(name)[0] == name;
    } else {
      OneMorePart(SymbolLookup.Components(name[..dot]), name[dot + 1..]);
    }
  }

  /** The names that the descriptor index takes are those made of the pool's identifiers. */
  lemma {:induction false} ValidNamesConsistOfIdentifiers(name: string)
    ensures SymbolNames.ValidName(name) <==> AreParts(SymbolLookup.Components(name))
    decreases |name|
  {
    ValidNameStep(name);
    PartsStep(name);
    if SymbolLookup.LastDot(name) >= 0 {
      ValidNamesConsistOfIdentifiers(name[..SymbolLookup.LastDot(name)]);
    }
  }

  ghost predicate Distinct(s: seq<string>) {
    forall i, j :: 0 <= i < j < |s| ==> s[i] != s[j]
  }

  lemma DistinctGrows(s: seq<string>, i: nat)
    requires i < |s|
    ensures Distinct(s[..i + 1]) <==> Distinct(s[..i]) && s[i] !in Elements(s[..i])
    ensures Elements(s[..i + 1]) == Elements(s[..i]) + {s[i]}
  {
    assert s[..i + 1] == s[..i] + [s[i]];
    ElementsOfConcat(s[..i], [s[i]]);
    assert [s[i]][0] == s[i];
    if Distinct(s[..i + 1]) {
      forall j, k | 0 <= j < k < |s[..i]|
        ensures s[..i][j] != s[..i][k]
      {
        assert s[..i + 1][j] != s[..i + 1][k];
      }
      forall j | 0 <= j < i
        ensures s[..i][j] != s[i]
      {
        assert s[..i + 1][j] != s[..i + 1][i];
      }
    }
  }

  function Values(files: map<string, Keyed<FileDescriptor>>): map<string, FileDescriptor> {
    map f | f in files :: files[f].value
  }

  /** Who imports whom publicly, as far as the tables know. */
  function PublicGraph(files: map<string, FileDescriptor>): PublicDependencies.Graph {
    map f | f in files :: PublicImports(files, files[f])
  }

  function PublicImports(files: map<string, FileDescriptor>, f: FileDescriptor): seq<Option<string>> {
    seq(|f.publicDependencies|, i requires 0 <= i < |f.publicDependencies| =>
      var p := f.publicDependencies[i];
      if p < |f.dependencies| && f.dependencies[p] in files then Some(f.dependencies[p])
      else None)
  }

  /** The imports, with None for those that are not in the tables. */
  function Direct(files: map<string, FileDescriptor>, imports: seq<string>): seq<Option<string>> {
    seq(|imports|, i requires 0 <= i < |imports| => if imports[i] in files then Some(imports[i]) else None)
  }

  /** The files whose symbols may be used: the imports and what they import publicly. */
  ghost function VisibleSet(files: map<string, FileDescriptor>, imports: seq<string>): set<string> {
    set d | d in files && PublicDependencies.Visible(PublicGraph(files), Direct(files, imports), d)
  }

  lemma VisibleIsLoaded(files: map<string, FileDescriptor>, imports: seq<string>, d: string)
    requires PublicDependencies.Visible(PublicGraph(files), Direct(files, imports), d)
    ensures d in files
  {
    var g, direct := PublicGraph(files), Direct(files, imports);
    var i :| 0 <= i < |direct| && direct[i].Some? && PublicDependencies.Reaches(g, direct[i].value, d);
    var p :| PublicDependencies.PathFromTo(g, p, direct[i].value, d);
    PublicDependencies.ClosedSetHoldsPath(g, files.Keys, p);
  }

  /** The positions that name an import, in order. */
  function ValidPositions(positions: seq<int>, n: nat): (r: seq<nat>)
    ensures |r| == |positions| <==> forall i :: 0 <= i < |positions| ==> 0 <= positions[i] < n
    ensures |r| <= |positions| && forall i :: 0 <= i < |r| ==> r[i] < n
  {
    if positions == [] then []
    else
      var last := positions[|positions| - 1];
      var rest := ValidPositions(positions[..|positions| - 1], n);
      assert positions == positions[..|positions| - 1] + [last];
      if 0 <= last < n then rest + [last] else rest
  }

  /** The entry names an import. */
  predicate IsValidPosition(positions: seq<int>, n: nat, i: nat)
    requires i < |positions|
  {
    0 <= positions[i] < n
  }

  /** Exactly the valid entries are kept, in their order: at tells where each of them stood. */
  lemma {:induction false} ValidPositionsAreKept(positions: seq<int>, n: nat) returns (at: seq<nat>)
    ensures var r := ValidPositions(positions, n);
            |at| == |r| && forall k :: 0 <= k < |r| ==> at[k] < |positions| && r[k] == positions[at[k]]
    ensures forall j, k :: 0 <= j < k < |at| ==> at[j] < at[k]
    ensures forall i: nat :: i < |positions| ==> (i in at <==> IsValidPosition(positions, n, i))
    decreases |positions|
  {
    if positions == [] {
      return [];
    }
    var last := |positions| - 1;
    at := ValidPositionsAreKept(positions[..last], n);
    ghost var before := at;
    assert forall i: nat :: i < last ==> (i in before <==> IsValidPosition(positions[..last], n, i));
    if 0 <= positions[last] < n {
      at := at + [last];
    }
    forall i: nat | i < |positions|
      ensures i in at <==> IsValidPosition(positions, n, i)
    {
      assert i < last ==> (IsValidPosition(positions[..last], n, i) <==> IsValidPosition(positions, n, i));
    }
  }

  lemma {:induction false} AllValidAreAll(positions: seq<int>, n: nat)
    requires forall i :: 0 <= i < |positions| ==> 0 <= positions[i] < n
    ensures |ValidPositions(positions, n)| == |positions|
    ensures forall i :: 0 <= i < |positions| ==> ValidPositions(positions, n)[i] == positions[i]
    decreases |positions|
  {
    if positions != [] {
      AllValidAreAll(positions[..|positions| - 1], n);
    }
  }

  /** The file of the proto imports b publicly: some valid entry of its list is the position of b among
      its imports. */
  ghost predicate ImportsPublicly(proto: FileProto, b: string) {
    exists i :: 0 <= i < |proto.publicDependencies| && 0 <= proto.publicDependencies[i] < |proto.dependencies|
                && proto.dependencies[proto.publicDependencies[i]] == b
  }

  /** The public imports of a file that was built are those its proto lists. */
  lemma PublicEdgesAreListed(files: map<string, FileDescriptor>, proto: FileProto, b: string)
    requires proto.name in files && files[proto.name] == Descriptor(proto)
    ensures PublicDependencies.Edge(PublicGraph(files), proto.name, b) <==> b in files && ImportsPublicly(proto, b)
  {
    var at := ValidPositionsAreKept(proto.publicDependencies, |proto.dependencies|);
    var imports := PublicImports(files, files[proto.name]);
    var positions := files[proto.name].publicDependencies;
    if Some(b) in imports {
      var k :| 0 <= k < |imports| && imports[k] == Some(b);
      assert proto.dependencies[proto.publicDependencies[at[k]]] == b;
    }
    if b in files && ImportsPublicly(proto, b) {
      var i: nat :| i < |proto.publicDependencies| && 0 <= proto.publicDependencies[i] < |proto.dependencies|
                    && proto.dependencies[proto.publicDependencies[i]] == b;
      assert IsValidPosition(proto.publicDependencies, |proto.dependencies|, i);
      var k :| 0 <= k < |at| && at[k] == i;
      assert imports[k] == Some(b);
    }
  }

  /** What a loaded file imports publicly can be seen by every file that imports it. */
  lemma PublicImportIsVisible(files: map<string, FileDescriptor>, imports: seq<string>, proto: FileProto, b: string)
    requires proto.name in files && files[proto.name] == Descriptor(proto) && proto.name in imports
    requires b in files && ImportsPublicly(proto, b)
    ensures b in VisibleSet(files, imports)
  {
    var g, direct := PublicGraph(files), Direct(files, imports);
    PublicEdgesAreListed(files, proto, b);
    PublicDependencies.ReachesSelf(g, b);
    PublicDependencies.ReachesThrough(g, proto.name, b, b);
    var i :| 0 <= i < |imports| && imports[i] == proto.name;
    assert direct[i] == Some(proto.name);
  }

  // ----- What a file that was built has put into the tables -----

  /** The first n symbols are defined. */
  ghost predicate SymbolsDefined(t: State, proto: FileProto, n: nat)
    requires n <= |proto.symbols|
  {
    forall i {:trigger SymbolDefined(t, FullName(proto.symbols[i]), proto)} :: 0 <= i < n ==> SymbolDefined(t, FullName(proto.symbols[i]), proto)
  }

  ghost predicate SymbolDefined(t: State, name: string, proto: FileProto) {
    name in t.symbols && t.symbols[name].value == SymbolOf(proto, name)
  }

  function SymbolOf(proto: FileProto, name: string): Symbol {
    Symbol(proto.kindOf(name), proto.name)
  }

  predicate IsWanted(symbols: map<string, Keyed<Symbol>>, x: string, wanted: set<SymbolLookup.SymbolType>) {
    x in symbols && symbols[x].value.kind in wanted
  }

  /** A full name that the lookup of a name in a scope may answer with: the name itself, or the name
      within an enclosing scope. */
  ghost predicate IsTried(name: string, relativeTo: string, x: string) {
    if name != "" && name[0] == '.' then x == name[1..]
    else x == name || exists i :: 0 <= i < |relativeTo| && relativeTo[i] == '.' && x == relativeTo[..i] + "." + name
  }

  /** A name that such a lookup may ask for: those, and its first part in the enclosing scopes. */
  ghost predicate IsAsked(name: string, relativeTo: string, x: string) {
    if name != "" && name[0] == '.' then x == name[1..]
    else x == name || exists i :: 0 <= i < |relativeTo| && relativeTo[i] == '.'
                                  && (x == relativeTo[..i] + "." + name || x == relativeTo[..i] + "." + SymbolLookup.FirstPart(name))
  }

  ghost predicate TargetDone(symbols: map<string, Keyed<Symbol>>, target: Target, x: string) {
    IsTried(target.name, target.relativeTo, x) && IsWanted(symbols, x, target.wanted)
  }

  ghost predicate TypeDone(symbols: map<string, Keyed<Symbol>>, fieldType: Option<Target>) {
    fieldType.Some? ==> exists x :: TargetDone(symbols, fieldType.value, x)
  }

  /** The number is registered: for this extension, unless it was taken before the file was built or
      another file has it. */
  ghost predicate Registered(before: Extensions, now: Extensions, key: FieldKey, field: ExtensionField) {
    key in now && (now[key] == field || key in before || now[key].file != field.file)
  }

  /** Every new extension of the file has its number among the given fields. */
  ghost predicate OwnAmong(before: Extensions, now: Extensions, file: string, fields: set<FieldKey>) {
    forall k :: k in now && k !in before && now[k].file == file ==> k in fields
  }

  lemma AddedIsRegistered(before: Extensions, now: Extensions, key: FieldKey, field: ExtensionField, fields: set<FieldKey>)
    requires OwnAmong(before, now, field.file, fields) && key !in fields
    ensures var now' := if key in now then now else now[key := field];
            Registered(before, now', key, field) && OwnAmong(before, now', field.file, fields + {key})
  {
  }

  lemma LoadingAddsNoOwn(before: Extensions, t: State, t': State, file: string, fields: set<FieldKey>)
    requires OwnAmong(before, t.extensions, file, fields) && Grown(t, t') && file in t.files
    ensures OwnAmong(before, t'.extensions, file, fields)
  {
  }

  /** What is referred to is there, and an extension is registered. */
  ghost predicate LinkDone(before: Extensions, t: State, file: string, link: CrossLink) {
    match link
    case Reference(target) => exists x :: TargetDone(t.symbols, target, x)
    case Field(_, _, fieldType) => TypeDone(t.symbols, fieldType)
    case Extension(extendee, number, fieldType, field) =>
      && TypeDone(t.symbols, fieldType)
      && exists x :: TargetDone(t.symbols, extendee, x)
                     && Registered(before, t.extensions, (x, number), ExtensionField(field, file))
  }

  /** The first n links are done. */
  ghost predicate LinksDone(before: Extensions, t: State, proto: FileProto, n: nat)
    requires n <= |proto.links|
  {
    forall i {:trigger LinkDone(before, t, proto.name, proto.links[i])} :: 0 <= i < n ==> LinkDone(before, t, proto.name, proto.links[i])
  }

  /** The package, the symbols and the extensions of the file are there, and its references resolve;
      before are the extensions that were there before the file. */
  ghost predicate Defined(before: Extensions, t: State, proto: FileProto) {
    && PackageDeclared(t.symbols, proto.package) && SymbolsDefined(t, proto, |proto.symbols|)
    && LinksDone(before, t, proto, |proto.links|)
  }

  /** The symbols are those of before and the first n names. */
  ghost predicate OnlyListedAdded(t0: State, t: State, names: seq<Declared>, n: nat)
    requires n <= |names|
  {
    forall x {:trigger Listed(names, n, x)} :: x in t.symbols <==> x in t0.symbols || Listed(names, n, x)
  }

  /** The first n names have been added, with an error when one of them was no good. */
  ghost predicate SymbolsAdded(t0: State, t: State, proto: FileProto, n: nat, hadErrors: bool, errors: bool)
    requires n <= |proto.symbols|
  {
    && t.files == t0.files && t.extensions == t0.extensions && Keeps(t0.symbols, t.symbols) && OnlyListedAdded(t0, t, proto.symbols, n)
    && (errors <==> hadErrors || !GoodNames(t0.symbols, "", proto.symbols, n))
    && (!errors ==> SymbolsDefined(t, proto, n))
    && NewAreListed(t0.symbols, t.symbols, proto)
  }

  lemma NoSymbolsAdded(t0: State, proto: FileProto, hadErrors: bool)
    ensures SymbolsAdded(t0, t0, proto, 0, hadErrors, hadErrors)
  {
  }

  lemma OnlyListedGrows(t0: State, t: State, t': State, names: seq<Declared>, i: nat)
    requires i < |names| && OnlyListedAdded(t0, t, names, i)
    requires forall x :: x in t'.symbols <==> x in t.symbols || x == FullName(names[i])
    ensures OnlyListedAdded(t0, t', names, i + 1)
  {
    forall x
      ensures x in t'.symbols <==> x in t0.symbols || Listed(names, i + 1, x)
    {
      ListedGrows(names, i, x);
    }
  }

  lemma GoodNameNow(t0: State, t: State, names: seq<Declared>, i: nat)
    requires i < |names| && OnlyListedAdded(t0, t, names, i)
    ensures GoodName(t0.symbols, "", names, i) <==> FullName(names[i]) !in t.symbols && ValidIdentifier(names[i].name)
  {
    var x := FullName(names[i]);
    var listed := Listed(names, i, x);
    assert x in t.symbols <==> x in t0.symbols || listed;
  }

  lemma GoodNamesGrow(symbols: map<string, Keyed<Symbol>>, package: string, names: seq<Declared>, i: nat)
    requires i < |names|
    ensures GoodNames(symbols, package, names, i + 1) <==> GoodNames(symbols, package, names, i) && GoodName(symbols, package, names, i)
  {
  }

  lemma SymbolsAddedNext(t0: State, t: State, t': State, proto: FileProto, i: nat, hadErrors: bool, errors: bool, error: bool)
    requires i < |proto.symbols| && SymbolsAdded(t0, t, proto, i, hadErrors, errors)
    requires t'.files == t.files && t'.extensions == t.extensions && Keeps(t.symbols, t'.symbols)
    requires forall x :: x in t'.symbols <==> x in t.symbols || x == FullName(proto.symbols[i])
    requires error <==> FullName(proto.symbols[i]) in t.symbols || !ValidIdentifier(proto.symbols[i].name)
    requires !error ==> SymbolDefined(t', FullName(proto.symbols[i]), proto)
    requires NewAreListed(t.symbols, t'.symbols, proto)
    ensures SymbolsAdded(t0, t', proto, i + 1, hadErrors, errors || error)
  {
    OnlyListedGrows(t0, t, t', proto.symbols, i);
    GoodNameNow(t0, t, proto.symbols, i);
    GoodNamesGrow(t0.symbols, "", proto.symbols, i);
    if !error {
      MoreDefined(t, t', proto, i);
    }
  }

  /** Every import is listed once and its file is in the tables. */
  ghost predicate ImportsPresent(files: map<string, Keyed<FileDescriptor>>, imports: seq<string>) {
    Distinct(imports) && forall i :: 0 <= i < |imports| ==> imports[i] in files
  }

  /** The file has been entered, under a string that is newer than all others. */
  ghost predicate HasNewFile(start: State, files: map<string, Keyed<FileDescriptor>>, name: string, file: FileDescriptor) {
    exists k: nat :: |start.strings| <= k && files == start.files[name := Keyed(k, file)]
  }

  lemma NewestFile(start: State, files: map<string, Keyed<FileDescriptor>>, name: string, file: FileDescriptor)
    requires KeysLive(start) && name !in start.files && HasNewFile(start, files, name, file)
    ensures name in files && files[name].value == file && |start.strings| <= files[name].key
    ensures files.Keys == start.files.Keys + {name}
    ensures forall f :: f in files && f != name ==> files[f].key < files[name].key
  {
  }

  /** When a file is built: its name is free, each import is listed once and loaded, the file itself
      being loaded by then, the positions of its public imports are valid, its package and symbols can
      be declared, with them each reference finds something of a kind that is wanted, and no field
      number is used twice in the file. All of this is about the tables of before; that another file
      has an extension number already does not matter. */
  ghost predicate CanBuild(symbols: map<string, Keyed<Symbol>>, files: map<string, Keyed<FileDescriptor>>, proto: FileProto,
                           enforce: bool)
  {
    && proto.name !in files && Distinct(proto.dependencies)
    && (forall i :: 0 <= i < |proto.dependencies| ==> proto.dependencies[i] == proto.name || proto.dependencies[i] in files)
    && (forall i :: 0 <= i < |proto.publicDependencies| ==> 0 <= proto.publicDependencies[i] < |proto.dependencies|)
    && CanDeclare(symbols, proto)
    && AllLink(FinderAfter(symbols, FilesAfter(files, proto), proto, enforce), proto.links, |proto.links|)
  }

  /** The package and the symbols can be declared. */
  ghost predicate CanDeclare(symbols: map<string, Keyed<Symbol>>, proto: FileProto) {
    && (proto.package != "" ==> PackageOk(symbols, proto.package))
    && GoodNames(symbols, proto.package, proto.symbols, |proto.symbols|)
  }

  lemma ImportsOfNewFile(start: State, files: map<string, Keyed<FileDescriptor>>, proto: FileProto, enforce: bool)
    requires proto.name !in start.files && HasNewFile(start, files, proto.name, Descriptor(proto))
    ensures CanBuild(start.symbols, start.files, proto, enforce) <==>
              && ImportsPresent(files, proto.dependencies) && CanDeclare(start.symbols, proto)
              && |ValidPositions(proto.publicDependencies, |proto.dependencies|)| == |proto.publicDependencies|
              && AllLink(FinderAfter(start.symbols, Values(files), proto, enforce), proto.links, |proto.links|)
  {
    assert Values(files) == FilesAfter(start.files, proto);
    assert forall n :: n in files <==> n == proto.name || n in start.files;
  }

  lemma SettledWithFile(start: State, files: map<string, Keyed<FileDescriptor>>, name: string, file: FileDescriptor)
    requires HasNewFile(start, files, name, file)
    ensures Settled(start.symbols, start.files, {}) ==> Settled(start.symbols, files, {name})
  {
    if Settled(start.symbols, start.files, {}) {
      forall f | f in files && f != name
        ensures PackageDeclared(start.symbols, files[f].value.package)
      {
        assert PackageDeclared(start.symbols, start.files[f].value.package);
      }
    }
  }

  function Descriptor(proto: FileProto): FileDescriptor {
    FileDescriptor(proto.name, proto.package, proto.dependencies, ValidPositions(proto.publicDependencies, |proto.dependencies|))
  }

  lemma DefinedStays(t: State, t': State, proto: FileProto)
    requires PackageDeclared(t.symbols, proto.package) && SymbolsDefined(t, proto, |proto.symbols|) && Kept(t, t')
    ensures PackageDeclared(t'.symbols, proto.package) && SymbolsDefined(t', proto, |proto.symbols|)
  {
    forall i | 0 <= i < |proto.symbols|
      ensures SymbolDefined(t', FullName(proto.symbols[i]), proto)
    {
      assert SymbolDefined(t, FullName(proto.symbols[i]), proto);
    }
  }

  lemma CommitKeepsDefined(before: Extensions, t: State, proto: FileProto)
    requires Defined(before, t, proto) && t.checkpoints != []
    ensures Defined(before, ClearLastCheckpointSpec(t), proto)
  {
    DefinedStays(t, ClearLastCheckpointSpec(t), proto);
    LinksStay(before, t, ClearLastCheckpointSpec(t), proto, |proto.links|);
  }

  lemma MoreDefined(t: State, t': State, proto: FileProto, i: nat)
    requires i < |proto.symbols| && Keeps(t.symbols, t'.symbols)
    requires SymbolDefined(t', FullName(proto.symbols[i]), proto)
    ensures SymbolsDefined(t, proto, i) ==> SymbolsDefined(t', proto, i + 1)
  {
    if SymbolsDefined(t, proto, i) {
      forall k | 0 <= k < i + 1
        ensures SymbolDefined(t', FullName(proto.symbols[k]), proto)
      {
        assert k < i ==> SymbolDefined(t, FullName(proto.symbols[k]), proto);
      }
    }
  }

  lemma LinksStay(before: Extensions, t: State, t': State, proto: FileProto, n: nat)
    requires n <= |proto.links| && LinksDone(before, t, proto, n) && Kept(t, t')
    ensures LinksDone(before, t', proto, n)
  {
    forall i | 0 <= i < n
      ensures LinkDone(before, t', proto.name, proto.links[i])
    {
      LinkStays(before, t, t', proto.name, proto.links[i]);
    }
  }

  lemma LinkStays(before: Extensions, t: State, t': State, file: string, link: CrossLink)
    requires LinkDone(before, t, file, link) && Kept(t, t')
    ensures LinkDone(before, t', file, link)
  {
    match link
    case Reference(target) =>
      var x :| TargetDone(t.symbols, target, x);
      assert TargetDone(t'.symbols, target, x);
    case Field(_, _, fieldType) => TypeStays(t, t', fieldType);
    case Extension(extendee, number, fieldType, field) =>
      TypeStays(t, t', fieldType);
      var x :| TargetDone(t.symbols, extendee, x) && Registered(before, t.extensions, (x, number), ExtensionField(field, file));
      assert TargetDone(t'.symbols, extendee, x) && Registered(before, t'.extensions, (x, number), ExtensionField(field, file));
  }

  lemma TypeStays(t: State, t': State, fieldType: Option<Target>)
    requires TypeDone(t.symbols, fieldType) && Kept(t, t')
    ensures TypeDone(t'.symbols, fieldType)
  {
    if fieldType.Some? {
      var x :| TargetDone(t.symbols, fieldType.value, x);
      assert TargetDone(t'.symbols, fieldType.value, x);
    }
  }

  /** The name is among the first n. */
  ghost predicate Listed(names: seq<Declared>, n: nat, name: string)
    requires n <= |names|
  {
    exists i :: 0 <= i < n && FullName(names[i]) == name
  }

  lemma ListedGrows(names: seq<Declared>, n: nat, name: string)
    requires n < |names|
    ensures Listed(names, n + 1, name) <==> Listed(names, n, name) || FullName(names[n]) == name
  {
  }

  /** The package's name is free for it or a package already, and so on for its new parents. */
  predicate PackageOk(symbols: map<string, Keyed<Symbol>>, name: string)
    decreases |name|
  {
    if name in symbols then symbols[name].value.IsPackage()
    else
      var dot := SymbolLookup.LastDot(name);
      if dot < 0 then ValidIdentifier(name) else PackageOk(symbols, name[..dot]) && ValidIdentifier(name[dot + 1..])
  }

  /** Declaring the package makes x a symbol: it is the package, or a parent up to the first that is
      there. */
  predicate NewParent(symbols: map<string, Keyed<Symbol>>, name: string, x: string)
    decreases |name|
  {
    name !in symbols
    && (x == name || (SymbolLookup.LastDot(name) >= 0 && NewParent(symbols, name[..SymbolLookup.LastDot(name)], x)))
  }

  /** The names that are taken once the package, if there is one, has been declared. */
  predicate Taken(symbols: map<string, Keyed<Symbol>>, package: string, x: string) {
    x in symbols || (package != "" && NewParent(symbols, package, x))
  }

  /** What declaring the package declares: it and its parents, up to the first that is there. */
  lemma {:induction false} NewParentMeans(symbols: map<string, Keyed<Symbol>>, name: string, x: string)
    ensures NewParent(symbols, name, x)
       <==> SymbolNames.IsSubSymbol(x, name) && forall y :: SymbolNames.IsSubSymbol(x, y) && SymbolNames.IsSubSymbol(y, name) ==> y !in symbols
    decreases |name|
  {
    var dot := SymbolLookup.LastDot(name);
    if dot >= 0 {
      NewParentMeans(symbols, name[..dot], x);
      forall y | y != name
        ensures SymbolNames.IsSubSymbol(y, name) <==> SymbolNames.IsSubSymbol(y, name[..dot])
      {
        PrefixOfChopped(name, y);
      }
    }
  }

  lemma PrefixOfChopped(name: string, y: string)
    requires y != name && SymbolLookup.LastDot(name) >= 0
    ensures SymbolNames.IsSubSymbol(y, name) <==> SymbolNames.IsSubSymbol(y, name[..SymbolLookup.LastDot(name)])
  {
  }

  /** The longest prefix of the name that is there. */
  ghost predicate IsInnermost(symbols: map<string, Keyed<Symbol>>, name: string, y: string) {
    && y in symbols && SymbolNames.IsSubSymbol(y, name)
    && forall z :: SymbolNames.IsSubSymbol(y, z) && SymbolNames.IsSubSymbol(z, name) && z != y ==> z !in symbols
  }

  ghost predicate NewEndsAreValid(symbols: map<string, Keyed<Symbol>>, name: string) {
    forall x :: NewParent(symbols, name, x) ==> ValidIdentifier(x[SymbolLookup.LastDot(x) + 1..])
  }

  ghost predicate InnermostIsPackage(symbols: map<string, Keyed<Symbol>>, name: string) {
    forall y :: IsInnermost(symbols, name, y) ==> symbols[y].value.IsPackage()
  }

  /** The package can be declared when what is new ends in identifiers and what is there is a package. */
  lemma {:induction false} PackageOkMeans(symbols: map<string, Keyed<Symbol>>, name: string)
    ensures PackageOk(symbols, name) <==> NewEndsAreValid(symbols, name) && InnermostIsPackage(symbols, name)
    decreases |name|
  {
    var dot := SymbolLookup.LastDot(name);
    if name in symbols {
      assert IsInnermost(symbols, name, name);
      InnermostIsFirst(symbols, name);
    } else if dot >= 0 {
      PackageOkMeans(symbols, name[..dot]);
      NewEndsOfChopped(symbols, name);
      forall y
        ensures IsInnermost(symbols, name, y) <==> IsInnermost(symbols, name[..dot], y)
      {
        InnermostOfChopped(symbols, name, y);
      }
    } else {
      SimplePackage(symbols, name);
    }
  }

  lemma InnermostIsFirst(symbols: map<string, Keyed<Symbol>>, name: string)
    requires name in symbols
    ensures forall y :: IsInnermost(symbols, name, y) <==> y == name
  {
  }

  lemma NewEndsOfChopped(symbols: map<string, Keyed<Symbol>>, name: string)
    requires name !in symbols && SymbolLookup.LastDot(name) >= 0
    ensures var dot := SymbolLookup.LastDot(name);
            NewEndsAreValid(symbols, name) <==> ValidIdentifier(name[dot + 1..]) && NewEndsAreValid(symbols, name[..dot])
  {
    assert NewParent(symbols, name, name);
    assert forall x :: NewParent(symbols, name, x) <==> x == name || NewParent(symbols, name[..SymbolLookup.LastDot(name)], x);
  }

  lemma SimplePackage(symbols: map<string, Keyed<Symbol>>, name: string)
    requires name !in symbols && SymbolLookup.LastDot(name) < 0
    ensures NewEndsAreValid(symbols, name) <==> ValidIdentifier(name)
    ensures InnermostIsPackage(symbols, name)
  {
    assert NewParent(symbols, name, name);
    assert name[SymbolLookup.LastDot(name) + 1..] == name;
    forall y
      ensures !IsInnermost(symbols, name, y)
    {
      NoParent(name, y);
    }
  }

  lemma NoParent(name: string, y: string)
    requires SymbolLookup.LastDot(name) < 0
    ensures SymbolNames.IsSubSymbol(y, name) ==> y == name
  {
  }

  lemma InnermostOfChopped(symbols: map<string, Keyed<Symbol>>, name: string, y: string)
    requires name !in symbols && SymbolLookup.LastDot(name) >= 0
    ensures IsInnermost(symbols, name, y) <==> IsInnermost(symbols, name[..SymbolLookup.LastDot(name)], y)
  {
    forall z | z != name
      ensures SymbolNames.IsSubSymbol(z, name) <==> SymbolNames.IsSubSymbol(z, name[..SymbolLookup.LastDot(name)])
    {
      PrefixOfChopped(name, z);
    }
  }

  /** A longer name that has just been added makes no difference to the package. */
  lemma {:induction false} LongerNameIsNoParent(symbols: map<string, Keyed<Symbol>>, symbols': map<string, Keyed<Symbol>>,
                                                added: string, name: string)
    requires |name| < |added| && Keeps(symbols, symbols') && forall x :: x in symbols' <==> x in symbols || x == added
    ensures PackageOk(symbols', name) == PackageOk(symbols, name)
    ensures forall x :: NewParent(symbols', name, x) <==> NewParent(symbols, name, x)
    decreases |name|
  {
    var dot := SymbolLookup.LastDot(name);
    if dot >= 0 {
      LongerNameIsNoParent(symbols, symbols', added, name[..dot]);
    }
  }

  /** The i-th name is valid, not taken, and not listed before. */
  ghost predicate GoodName(symbols: map<string, Keyed<Symbol>>, package: string, names: seq<Declared>, i: nat)
    requires i < |names|
  {
    var x := FullName(names[i]);
    ValidIdentifier(names[i].name) && !Taken(symbols, package, x) && !Listed(names, i, x)
  }

  ghost predicate GoodNames(symbols: map<string, Keyed<Symbol>>, package: string, names: seq<Declared>, n: nat)
    requires n <= |names|
  {
    forall i {:trigger GoodName(symbols, package, names, i)} :: 0 <= i < n ==> GoodName(symbols, package, names, i)
  }

  /** Once the package is declared, what is taken is simply there. */
  lemma GoodAfterPackage(symbols: map<string, Keyed<Symbol>>, symbols': map<string, Keyed<Symbol>>, package: string, names: seq<Declared>)
    requires forall x {:trigger Taken(symbols, package, x)} :: x in symbols' <==> Taken(symbols, package, x)
    ensures GoodNames(symbols', "", names, |names|) <==> GoodNames(symbols, package, names, |names|)
  {
    forall i | 0 <= i < |names|
      ensures GoodName(symbols', "", names, i) <==> GoodName(symbols, package, names, i)
    {
      var x := FullName(names[i]);
      assert Taken(symbols', "", x) <==> Taken(symbols, package, x);
    }
  }

  /** The packages that were proper still are, and so are the new ones. */
  ghost predicate StaysProper(symbols: map<string, Keyed<Symbol>>, symbols': map<string, Keyed<Symbol>>) {
    forall x {:trigger ProperAt(symbols', x)} :: ProperAt(symbols, x) ==> ProperAt(symbols', x)
  }

  lemma ProperWithParent(symbols: map<string, Keyed<Symbol>>, u: map<string, Keyed<Symbol>>, symbols': map<string, Keyed<Symbol>>,
                         name: string)
    requires name != "" && Keeps(symbols, u) && Keeps(u, symbols') && StaysProper(u, symbols')
    requires forall x :: x in u <==> x in symbols || x == name
    requires SymbolLookup.LastDot(name) >= 0 ==> IsPackageIn(symbols', name[..SymbolLookup.LastDot(name)])
    ensures StaysProper(symbols, symbols')
  {
    forall x | ProperAt(symbols, x)
      ensures ProperAt(symbols', x)
    {
      assert x != name ==> ProperAt(u, x);
    }
  }

  /** What is new is a package of this file. */
  ghost predicate NewArePackages(symbols: map<string, Keyed<Symbol>>, symbols': map<string, Keyed<Symbol>>, file: string) {
    forall x :: x in symbols' && x !in symbols ==> symbols'[x].value == Symbol(SymbolLookup.PACKAGE, file)
  }

  /** What is new is as the file defines it. */
  ghost predicate NewAreListed(symbols: map<string, Keyed<Symbol>>, symbols': map<string, Keyed<Symbol>>, proto: FileProto) {
    forall x :: x in symbols' && x !in symbols ==> symbols'[x].value == SymbolOf(proto, x)
  }

  /** The entries of the three maps stay. */
  ghost predicate Kept(t: State, t': State) {
    Keeps(t.symbols, t'.symbols) && Keeps(t.files, t'.files) && Keeps(t.extensions, t'.extensions)
  }

  lemma KeptTransitive(t: State, u: State, v: State)
    requires Kept(t, u) && Kept(u, v)
    ensures Kept(t, v)
  {
  }

  // ----- What a file under construction finds -----

  function ValueAt(symbols: map<string, Keyed<Symbol>>, x: string): Option<Symbol> {
    if x in symbols then Some(symbols[x].value) else None
  }

  /** The symbol is defined in the file or in one it can see, or is a package that one of them is in. */
  ghost predicate CanUse(symbol: Symbol, x: string, proto: FileProto, dependencies: set<string>, files: map<string, FileDescriptor>) {
    || symbol.file == proto.name || symbol.file in dependencies
    || (symbol.IsPackage()
        && (SymbolNames.IsSubSymbol(x, proto.package)
            || exists d :: d in dependencies && d in files && SymbolNames.IsSubSymbol(x, files[d].package)))
  }

  const NOTHING: SymbolLookup.Symbol := SymbolLookup.Symbol(SymbolLookup.NULL_SYMBOL, "")

  ghost function Found(symbol: Option<Symbol>, x: string, proto: FileProto, dependencies: set<string>,
                       files: map<string, FileDescriptor>, enforce: bool): SymbolLookup.Symbol
  {
    if symbol.Some? && (enforce ==> CanUse(symbol.value, x, proto, dependencies, files)) then SymbolLookup.Symbol(symbol.value.kind, x)
    else NOTHING
  }

  ghost function FoundIn(t: State, x: string, proto: FileProto, dependencies: set<string>, enforce: bool): SymbolLookup.Symbol {
    Found(ValueAt(t.symbols, x), x, proto, dependencies, Values(t.files), enforce)
  }

  ghost function Finder(t: State, proto: FileProto, dependencies: set<string>, enforce: bool): string -> SymbolLookup.Symbol {
    x => FoundIn(t, x, proto, dependencies, enforce)
  }

  ghost predicate SameFinds(t: State, t': State, proto: FileProto, dependencies: set<string>, enforce: bool) {
    forall x :: FoundIn(t, x, proto, dependencies, enforce) == FoundIn(t', x, proto, dependencies, enforce)
  }

  /** The file itself and all files that it can see are in the tables. */
  ghost predicate Knows(files: map<string, Keyed<FileDescriptor>>, proto: FileProto, dependencies: set<string>) {
    proto.name in files && files[proto.name].value.package == proto.package && dependencies <= files.Keys
  }

  // ----- What a file asks the fallback database for -----

  /** The database answers the question for the symbol with a loaded file, if at all. */
  ghost predicate Quiet(db: Option<Database>, loaded: set<string>, name: string) {
    db.None? || db.value.bySymbol(name).None? || db.value.bySymbol(name).value.name in loaded
  }

  /** No question that the lookup of the name may ask can load a file. */
  ghost predicate QuietIn(db: Option<Database>, loaded: set<string>, name: string, relativeTo: string) {
    forall x {:trigger IsAsked(name, relativeTo, x)} :: IsAsked(name, relativeTo, x) ==> Quiet(db, loaded, x)
  }

  ghost predicate QuietFor(db: Option<Database>, loaded: set<string>, target: Target) {
    QuietIn(db, loaded, target.name, target.relativeTo)
  }

  ghost predicate QuietType(db: Option<Database>, loaded: set<string>, fieldType: Option<Target>) {
    fieldType.Some? ==> QuietFor(db, loaded, fieldType.value)
  }

  ghost predicate QuietLink(db: Option<Database>, loaded: set<string>, link: CrossLink) {
    match link
    case Reference(target) => QuietFor(db, loaded, target)
    case Field(_, _, fieldType) => QuietType(db, loaded, fieldType)
    case Extension(extendee, _, fieldType, _) => QuietFor(db, loaded, extendee) && QuietType(db, loaded, fieldType)
  }

  /** The file asks the database for nothing but what is loaded. */
  ghost predicate QuietFile(db: Option<Database>, loaded: set<string>, proto: FileProto) {
    forall i :: 0 <= i < |proto.links| ==> QuietLink(db, loaded, proto.links[i])
  }

  lemma QuietItself(db: Option<Database>, loaded: set<string>, name: string, scope: string)
    requires !(name != "" && name[0] == '.')
    ensures QuietIn(db, loaded, name, scope) ==> Quiet(db, loaded, name)
  {
    assert IsAsked(name, scope, name);
  }

  lemma QuietWithin(db: Option<Database>, loaded: set<string>, name: string, scope: string, dot: nat)
    requires !(name != "" && name[0] == '.') && dot < |scope| && scope[dot] == '.'
    ensures QuietIn(db, loaded, name, scope) ==>
              Quiet(db, loaded, scope[..dot] + "." + name) && Quiet(db, loaded, scope[..dot] + "." + SymbolLookup.FirstPart(name))
  {
    assert IsAsked(name, scope, scope[..dot] + "." + name);
    assert IsAsked(name, scope, scope[..dot] + "." + SymbolLookup.FirstPart(name));
  }

  lemma QuietFurtherIn(db: Option<Database>, loaded: set<string>, name: string, scope: string, relativeTo: string)
    requires QuietIn(db, loaded, name, relativeTo) && scope <= relativeTo
    ensures QuietIn(db, loaded, name, scope)
  {
    forall x | IsAsked(name, scope, x)
      ensures IsAsked(name, relativeTo, x)
    {
      if i :| 0 <= i < |scope| && scope[i] == '.' && (x == scope[..i] + "." + name || x == scope[..i] + "." + SymbolLookup.FirstPart(name)) {
        assert relativeTo[i] == '.' && scope[..i] == relativeTo[..i];
      }
    }
  }

  // ----- What it will find, told from the tables of before -----

  /** The symbols once the package and the symbols of the file have been declared. */
  ghost function SymbolAfter(symbols: map<string, Keyed<Symbol>>, proto: FileProto, x: string): Option<Symbol> {
    if x in symbols then Some(symbols[x].value)
    else if proto.package != "" && NewParent(symbols, proto.package, x) then Some(Symbol(SymbolLookup.PACKAGE, proto.name))
    else if Listed(proto.symbols, |proto.symbols|, x) then Some(SymbolOf(proto, x))
    else None
  }

  function FilesAfter(files: map<string, Keyed<FileDescriptor>>, proto: FileProto): map<string, FileDescriptor> {
    Values(files)[proto.name := Descriptor(proto)]
  }

  /** What the file finds once it is declared; files are the loaded ones and the file itself. */
  ghost function FinderAfter(symbols: map<string, Keyed<Symbol>>, files: map<string, FileDescriptor>, proto: FileProto, enforce: bool)
    : string -> SymbolLookup.Symbol
  {
    var dependencies := VisibleSet(files, proto.dependencies);
    x => Found(SymbolAfter(symbols, proto, x), x, proto, dependencies, files, enforce)
  }

  ghost function Sought(find: string -> SymbolLookup.Symbol, target: Target): SymbolLookup.Symbol {
    SymbolLookup.LookupIn(find, target.name, target.relativeTo, target.mode).symbol
  }

  /** The target finds something of a kind that is wanted. */
  ghost predicate Resolves(find: string -> SymbolLookup.Symbol, target: Target) {
    !Sought(find, target).IsNull() && Sought(find, target).kind in target.wanted
  }

  ghost predicate TypeResolves(find: string -> SymbolLookup.Symbol, fieldType: Option<Target>) {
    fieldType.Some? ==> Resolves(find, fieldType.value)
  }

  ghost predicate LinkResolves(find: string -> SymbolLookup.Symbol, link: CrossLink) {
    match link
    case Reference(target) => Resolves(find, target)
    case Field(_, _, fieldType) => TypeResolves(find, fieldType)
    case Extension(extendee, _, fieldType, _) => Resolves(find, extendee) && TypeResolves(find, fieldType)
  }

  /** The key under which the link enters the fields of the file by number, if it gets that far. */
  ghost function KeyOf(find: string -> SymbolLookup.Symbol, link: CrossLink): Option<FieldKey> {
    if link.Reference? || !LinkResolves(find, link) then None
    else Some((if link.Field? then link.message else Sought(find, link.extendee).name, link.number))
  }

  ghost predicate HasKey(find: string -> SymbolLookup.Symbol, links: seq<CrossLink>, i: nat, key: FieldKey)
    requires i < |links|
  {
    KeyOf(find, links[i]) == Some(key)
  }

  /** One of the first n links has the key. */
  ghost predicate Used(find: string -> SymbolLookup.Symbol, links: seq<CrossLink>, n: nat, key: FieldKey)
    requires n <= |links|
  {
    exists i {:trigger HasKey(find, links, i, key)} :: 0 <= i < n && HasKey(find, links, i, key)
  }

  lemma UsedByNext(find: string -> SymbolLookup.Symbol, links: seq<CrossLink>, n: nat, key: FieldKey)
    requires n < |links|
    ensures Used(find, links, n + 1, key) <==> Used(find, links, n, key) || HasKey(find, links, n, key)
  {
  }

  ghost predicate AllLink(find: string -> SymbolLookup.Symbol, links: seq<CrossLink>, n: nat)
    requires n <= |links|
  {
    forall i {:trigger LinkAt(find, links, i)} :: 0 <= i < n ==> LinkAt(find, links, i)
  }

  /** The link finds what it wants, and its number is not used before it in the file. */
  ghost predicate LinkAt(find: string -> SymbolLookup.Symbol, links: seq<CrossLink>, i: nat)
    requires i < |links|
  {
    var key := KeyOf(find, links[i]);
    LinkResolves(find, links[i]) && (key.Some? ==> !Used(find, links, i, key.value))
  }

  lemma OneMoreLinks(find: string -> SymbolLookup.Symbol, links: seq<CrossLink>, i: nat)
    requires i < |links|
    ensures AllLink(find, links, i + 1) <==> AllLink(find, links, i) && LinkAt(find, links, i)
  {
  }

  ghost predicate DistinctKeys(find: string -> SymbolLookup.Symbol, links: seq<CrossLink>) {
    forall i, j :: 0 <= i < j < |links| && !links[i].Reference? && !links[j].Reference? ==> KeyOf(find, links[i]) != KeyOf(find, links[j])
  }

  /** All links are good exactly when each finds what it wants and no two fields or extensions of the
      file have the same number in the same message. */
  lemma AllLinkIff(find: string -> SymbolLookup.Symbol, links: seq<CrossLink>)
    ensures AllLink(find, links, |links|)
       <==> (forall i :: 0 <= i < |links| ==> LinkResolves(find, links[i])) && DistinctKeys(find, links)
  {
    if AllLink(find, links, |links|) {
      forall i | 0 <= i < |links|
        ensures LinkResolves(find, links[i])
      {
        assert LinkAt(find, links, i);
      }
      forall i, j | 0 <= i < j < |links| && !links[i].Reference? && !links[j].Reference?
        ensures KeyOf(find, links[i]) != KeyOf(find, links[j])
      {
        assert LinkAt(find, links, j);
        assert !HasKey(find, links, i, KeyOf(find, links[j]).value);
      }
    }
    if (forall i :: 0 <= i < |links| ==> LinkResolves(find, links[i])) && DistinctKeys(find, links) {
      forall j | 0 <= j < |links|
        ensures LinkAt(find, links, j)
      {
        var key := KeyOf(find, links[j]);
        forall i | 0 <= i < j && key.Some?
          ensures !HasKey(find, links, i, key.value)
        {
          assert LinkResolves(find, links[i]);
        }
      }
    }
  }

  lemma SameFindsSameTarget(find: string -> SymbolLookup.Symbol, find': string -> SymbolLookup.Symbol, target: Target)
    requires forall x :: find(x) == find'(x)
    ensures Sought(find, target) == Sought(find', target)
    ensures Resolves(find, target) <==> Resolves(find', target)
  {
    var scope := SymbolLookup.Components(target.relativeTo);
    SymbolLookup.SameFindsSameResolve(find, find', scope, |scope| - 1, target.name, target.mode);
  }

  lemma SameFindsSameType(find: string -> SymbolLookup.Symbol, find': string -> SymbolLookup.Symbol, fieldType: Option<Target>)
    requires forall x :: find(x) == find'(x)
    ensures TypeResolves(find, fieldType) <==> TypeResolves(find', fieldType)
  {
    if fieldType.Some? {
      SameFindsSameTarget(find, find', fieldType.value);
    }
  }

  lemma SameFindsSameLink(find: string -> SymbolLookup.Symbol, find': string -> SymbolLookup.Symbol, link: CrossLink)
    requires forall x :: find(x) == find'(x)
    ensures LinkResolves(find, link) <==> LinkResolves(find', link)
    ensures KeyOf(find, link) == KeyOf(find', link)
  {
    match link
    case Reference(target) => SameFindsSameTarget(find, find', target);
    case Field(_, _, fieldType) => SameFindsSameType(find, find', fieldType);
    case Extension(extendee, _, fieldType, _) =>
      SameFindsSameTarget(find, find', extendee);
      SameFindsSameType(find, find', fieldType);
  }

  lemma SameFindsSameUsed(find: string -> SymbolLookup.Symbol, find': string -> SymbolLookup.Symbol,
                          links: seq<CrossLink>, n: nat, key: FieldKey)
    requires n <= |links| && forall x :: find(x) == find'(x)
    ensures Used(find, links, n, key) <==> Used(find', links, n, key)
  {
    forall i | 0 <= i < n
      ensures HasKey(find, links, i, key) <==> HasKey(find', links, i, key)
    {
      SameFindsSameLink(find, find', links[i]);
    }
  }

  lemma SameFindsAllLink(find: string -> SymbolLookup.Symbol, find': string -> SymbolLookup.Symbol, links: seq<CrossLink>)
    requires forall x :: find(x) == find'(x)
    ensures AllLink(find, links, |links|) <==> AllLink(find', links, |links|)
  {
    forall i | 0 <= i < |links|
      ensures LinkAt(find, links, i) <==> LinkAt(find', links, i)
    {
      SameFindsSameLink(find, find', links[i]);
      var key := KeyOf(find, links[i]);
      if key.Some? {
        SameFindsSameUsed(find, find', links, i, key.value);
      }
    }
  }

  /** The declared tables are as foretold. */
  ghost predicate DeclaredAs(symbols: map<string, Keyed<Symbol>>, symbols': map<string, Keyed<Symbol>>, proto: FileProto) {
    forall x :: ValueAt(symbols', x) == SymbolAfter(symbols, proto, x)
  }

  lemma ResolvesAsForetold(t: State, v: State, proto: FileProto, enforce: bool)
    requires DeclaredAs(t.symbols, v.symbols, proto) && v.files == t.files
    ensures AllLink(Finder(v, proto, VisibleSet(Values(v.files), proto.dependencies), enforce), proto.links, |proto.links|)
       <==> AllLink(FinderAfter(t.symbols, Values(t.files), proto, enforce), proto.links, |proto.links|)
  {
    SameFindsAllLink(Finder(v, proto, VisibleSet(Values(v.files), proto.dependencies), enforce),
                     FinderAfter(t.symbols, Values(t.files), proto, enforce), proto.links);
  }

  /** The file is all that is new, with what it declares. */
  ghost predicate Adds(t: State, t': State, proto: FileProto) {
    Values(t'.files) == FilesAfter(t.files, proto) && DeclaredAs(t.symbols, t'.symbols, proto)
  }

  lemma EnteredAdds(start: State, files: map<string, Keyed<FileDescriptor>>, t': State, proto: FileProto)
    requires HasNewFile(start, files, proto.name, Descriptor(proto)) && t'.files == files && DeclaredAs(start.symbols, t'.symbols, proto)
    ensures Adds(start, t', proto)
  {
  }

  /** Declaring the package p and then the symbols, when all went well. */
  lemma DeclaredInTwoSteps(symbols: map<string, Keyed<Symbol>>, p: map<string, Keyed<Symbol>>, symbols': map<string, Keyed<Symbol>>,
                           proto: FileProto)
    requires Keeps(symbols, p) && Keeps(p, symbols')
    requires forall x {:trigger Taken(symbols, proto.package, x)} :: x in p <==> Taken(symbols, proto.package, x)
    requires forall x {:trigger Listed(proto.symbols, |proto.symbols|, x)} ::
               x in symbols' <==> x in p || Listed(proto.symbols, |proto.symbols|, x)
    requires NewArePackages(symbols, p, proto.name)
    requires NewAreListed(p, symbols', proto)
    ensures DeclaredAs(symbols, symbols', proto)
  {
    forall x
      ensures ValueAt(symbols', x) == SymbolAfter(symbols, proto, x)
    {
      assert x in p <==> Taken(symbols, proto.package, x);
      assert x in symbols' <==> x in p || Listed(proto.symbols, |proto.symbols|, x);
    }
  }

  lemma SettledWithSymbols(p: map<string, Keyed<Symbol>>, symbols': map<string, Keyed<Symbol>>,
                           files: map<string, Keyed<FileDescriptor>>, proto: FileProto)
    requires Settled(p, files, {proto.name}) && Keeps(p, symbols') && NewAreListed(p, symbols', proto)
    requires proto.name in files && files[proto.name].value.package == proto.package && PackageDeclared(symbols', proto.package)
    ensures Settled(symbols', files, {})
  {
    forall x
      ensures ProperAt(symbols', x)
    {
      assert ProperAt(p, x);
    }
    forall f | f in files
      ensures PackageDeclared(symbols', files[f].value.package)
    {
      assert f != proto.name ==> PackageDeclared(p, files[f].value.package);
    }
  }

  lemma SettledWithPackage(symbols: map<string, Keyed<Symbol>>, p: map<string, Keyed<Symbol>>, files: map<string, Keyed<FileDescriptor>>,
                           except: set<string>)
    requires Settled(symbols, files, except) && Keeps(symbols, p) && StaysProper(symbols, p)
    ensures Settled(p, files, except)
  {
    forall x
      ensures ProperAt(p, x)
    {
      assert ProperAt(symbols, x);
    }
    forall f | f in files && f !in except
      ensures PackageDeclared(p, files[f].value.package)
    {
      assert PackageDeclared(symbols, files[f].value.package);
    }
  }

  lemma {:induction false} PrefixesArePackages(symbols: map<string, Keyed<Symbol>>, package: string, x: string)
    requires forall y {:trigger ProperAt(symbols, y)} :: ProperAt(symbols, y)
    requires IsPackageIn(symbols, package) && SymbolNames.IsSubSymbol(x, package)
    ensures IsPackageIn(symbols, x)
    decreases |package|
  {
    if x != package {
      assert ProperAt(symbols, package);
      var dot := SymbolLookup.LastDot(package);
      assert |x| <= dot;
      assert SymbolNames.IsSubSymbol(x, package[..dot]);
      PrefixesArePackages(symbols, package[..dot], x);
    }
  }

  /** A new symbol is never one that the file may use: it is in no file that the file sees, and every
      package that those files are in was there before. */
  lemma NewSymbolsAreUseless(t: State, t': State, proto: FileProto, dependencies: set<string>, x: string)
    requires Grown(t, t') && Settled(t.symbols, t.files, {}) && Knows(t.files, proto, dependencies)
    requires x in t'.symbols && x !in t.symbols
    ensures !CanUse(t'.symbols[x].value, x, proto, dependencies, Values(t'.files))
  {
    assert ProperAt(t'.symbols, x);
    forall f | f in t.files
      ensures !(t'.symbols[x].value.IsPackage() && SymbolNames.IsSubSymbol(x, t.files[f].value.package))
    {
      var package := t.files[f].value.package;
      assert PackageDeclared(t.symbols, package);
      if t'.symbols[x].value.IsPackage() && SymbolNames.IsSubSymbol(x, package) {
        PrefixesArePackages(t.symbols, package, x);
      }
    }
  }

  /** While a file is linked, the loading of others never changes what it finds. */
  lemma LoadingFindsNothingNew(t: State, t': State, proto: FileProto, dependencies: set<string>)
    requires Grown(t, t') && Settled(t.symbols, t.files, {}) && Knows(t.files, proto, dependencies)
    ensures SameFinds(t, t', proto, dependencies, true)
  {
    forall x
      ensures FoundIn(t, x, proto, dependencies, true) == FoundIn(t', x, proto, dependencies, true)
    {
      if x in t.symbols {
        UseStays(t, t', t.symbols[x].value, x, proto, dependencies);
      } else if x in t'.symbols {
        NewSymbolsAreUseless(t, t', proto, dependencies, x);
      }
    }
  }

  lemma UseStays(t: State, t': State, symbol: Symbol, x: string, proto: FileProto, dependencies: set<string>)
    requires Keeps(t.files, t'.files) && Knows(t.files, proto, dependencies)
    ensures CanUse(symbol, x, proto, dependencies, Values(t.files)) <==> CanUse(symbol, x, proto, dependencies, Values(t'.files))
  {
    forall d | d in dependencies
      ensures d in Values(t.files) && d in Values(t'.files) && Values(t.files)[d] == Values(t'.files)[d]
    {
    }
  }

  ghost predicate Loaded(t: State, proto: FileProto) {
    proto.name in t.files
  }
}
