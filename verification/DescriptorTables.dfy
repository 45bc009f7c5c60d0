/** DescriptorPool::Tables: three maps, the pools that own their keys, and a stack of checkpoints to
    which a failed build is rolled back. */
module DescriptorTables {
  import SymbolLookup

  type SymbolKind = k: SymbolLookup.SymbolType | k != SymbolLookup.NULL_SYMBOL witness SymbolLookup.MESSAGE

  /** A symbol remembers the file that defines it; packages may be defined by several files. */
  datatype Symbol = Symbol(kind: SymbolKind, file: string) {
    predicate IsPackage() {
      kind == SymbolLookup.PACKAGE
    }
  }

  /** publicDependencies are the valid positions in dependencies of the public imports. */
  datatype FileDescriptor = FileDescriptor(name: string, package: string, dependencies: seq<string>,
                                           publicDependencies: seq<nat>)

  /** A field or an extension by its number: the full name of the message that it belongs to, or that
      it extends, and the number. */
  type FieldKey = (string, int)

  /** An extension field and the file that defines it. */
  datatype ExtensionField = ExtensionField(name: string, file: string)

  type Extensions = map<FieldKey, ExtensionField>

  /** A map entry together with its key, which is not copied: a position in strings. */
  datatype Keyed<T> = Keyed(key: nat, value: T)

  datatype CheckPoint = CheckPoint(strings: nat, messages: nat, fileTables: nat, allocations: nat,
                                   pendingSymbols: nat, pendingFiles: nat, pendingExtensions: nat)

  /** The value of the tables. A string pointer is a position in strings, so an address is used
      again once the string that had it was freed. */
  datatype State = State(symbols: map<string, Keyed<Symbol>>,
                         files: map<string, Keyed<FileDescriptor>>,
                         extensions: Extensions,
                         strings: seq<string>, messages: nat, fileTables: nat, allocations: nat,
                         checkpoints: seq<CheckPoint>,
                         symbolsAfter: seq<nat>, filesAfter: seq<nat>, extensionsAfter: seq<FieldKey>)

  // ----- Specifications of the operations -----

  function Mark(t: State): CheckPoint {
    CheckPoint(|t.strings|, t.messages, t.fileTables, t.allocations,
               |t.symbolsAfter|, |t.filesAfter|, |t.extensionsAfter|)
  }

  function AddCheckpointSpec(t: State): State {
    t.(checkpoints := t.checkpoints + [Mark(t)])
  }

  function ClearLastCheckpointSpec(t: State): State
    requires t.checkpoints != []
  {
    var t' := t.(checkpoints := t.checkpoints[..|t.checkpoints| - 1]);
    if t'.checkpoints == [] then t'.(symbolsAfter := [], filesAfter := [], extensionsAfter := []) else t'
  }

  /** The names behind the pointers. */
  function Names(strings: seq<string>, pointers: seq<nat>): set<string> {
    set i | 0 <= i < |pointers| && pointers[i] < |strings| :: strings[pointers[i]]
  }

  function Elements<T>(s: seq<T>): set<T> {
    set i | 0 <= i < |s| :: s[i]
  }

  /** The last checkpoint was taken on a prefix of what is there now. */
  predicate CanRollback(t: State) {
    && t.checkpoints != []
    && var c := t.checkpoints[|t.checkpoints| - 1];
       c.strings <= |t.strings| && c.pendingSymbols <= |t.symbolsAfter| && c.pendingFiles <= |t.filesAfter|
       && c.pendingExtensions <= |t.extensionsAfter|
  }

  function RollbackSpec(t: State): State
    requires CanRollback(t)
  {
    var c := t.checkpoints[|t.checkpoints| - 1];
    State(t.symbols - Names(t.strings, t.symbolsAfter[c.pendingSymbols..]),
          t.files - Names(t.strings, t.filesAfter[c.pendingFiles..]),
          t.extensions - Elements(t.extensionsAfter[c.pendingExtensions..]),
          t.strings[..c.strings], c.messages, c.fileTables, c.allocations,
          t.checkpoints[..|t.checkpoints| - 1],
          t.symbolsAfter[..c.pendingSymbols], t.filesAfter[..c.pendingFiles],
          t.extensionsAfter[..c.pendingExtensions])
  }

  function AddSymbolSpec(t: State, name: nat, symbol: Symbol): (bool, State)
    requires name < |t.strings|
  {
    if t.strings[name] in t.symbols then (false, t)
    else (true, t.(symbols := t.symbols[t.strings[name] := Keyed(name, symbol)], symbolsAfter := t.symbolsAfter + [name]))
  }

  function AddFileSpec(t: State, name: nat, file: FileDescriptor): (bool, State)
    requires name < |t.strings|
  {
    if t.strings[name] in t.files then (false, t)
    else (true, t.(files := t.files[t.strings[name] := Keyed(name, file)], filesAfter := t.filesAfter + [name]))
  }

  function AddExtensionSpec(t: State, key: FieldKey, field: ExtensionField): (bool, State) {
    if key in t.extensions then (false, t)
    else (true, t.(extensions := t.extensions[key := field], extensionsAfter := t.extensionsAfter + [key]))
  }

  // ----- Invariants -----

  ghost predicate KeyLive<T>(m: map<string, Keyed<T>>, strings: seq<string>) {
    forall k :: k in m ==> m[k].key < |strings| && strings[m[k].key] == k
  }

  /** Every key of the maps, and every pointer of the undo lists, is a string that is still owned. */
  ghost predicate KeysLive(t: State) {
    && KeyLive(t.symbols, t.strings)
    && KeyLive(t.files, t.strings)
    && (forall i :: 0 <= i < |t.symbolsAfter| ==> t.symbolsAfter[i] < |t.strings|)
    && (forall i :: 0 <= i < |t.filesAfter| ==> t.filesAfter[i] < |t.strings|)
    && (t.checkpoints == [] ==> t.symbolsAfter == [] && t.filesAfter == [] && t.extensionsAfter == [])
  }

  ghost predicate MapGrows<K, V>(m: map<K, V>, m': map<K, V>, added: set<K>) {
    m.Keys !! added && m'.Keys == m.Keys + added && forall k :: k in m ==> m'[k] == m[k]
  }

  /** t' is t plus additions that the undo lists name completely. */
  ghost predicate Extends(t: State, t': State) {
    && t'.checkpoints == t.checkpoints
    && t.strings <= t'.strings
    && t.messages <= t'.messages && t.fileTables <= t'.fileTables && t.allocations <= t'.allocations
    && t.symbolsAfter <= t'.symbolsAfter && t.filesAfter <= t'.filesAfter && t.extensionsAfter <= t'.extensionsAfter
    && MapGrows(t.symbols, t'.symbols, Names(t'.strings, t'.symbolsAfter[|t.symbolsAfter|..]))
    && MapGrows(t.files, t'.files, Names(t'.strings, t'.filesAfter[|t.filesAfter|..]))
    && MapGrows(t.extensions, t'.extensions, Elements(t'.extensionsAfter[|t.extensionsAfter|..]))
  }

  lemma ExtendsReflexive(t: State)
    ensures Extends(t, t)
  {
  }

  lemma NamesOfConcat(strings: seq<string>, longer: seq<string>, a: seq<nat>, b: seq<nat>)
    requires strings <= longer && forall i :: 0 <= i < |a| ==> a[i] < |strings|
    ensures Names(longer, a + b) == Names(strings, a) + Names(longer, b)
  {
    forall n
      ensures n in Names(longer, a + b) <==> n in Names(strings, a) + Names(longer, b)
    {
      if i :| 0 <= i < |b| && b[i] < |longer| && longer[b[i]] == n {
        assert (a + b)[|a| + i] == b[i];
      }
      if i :| 0 <= i < |a| && a[i] < |strings| && strings[a[i]] == n {
        assert (a + b)[i] == a[i];
      }
    }
  }

  lemma ElementsOfConcat<T>(a: seq<T>, b: seq<T>)
    ensures Elements(a + b) == Elements(a) + Elements(b)
  {
    forall x
      ensures x in Elements(a + b) <==> x in Elements(a) + Elements(b)
    {
      if i :| 0 <= i < |b| && b[i] == x {
        assert (a + b)[|a| + i] == x;
      }
      if i :| 0 <= i < |a| && a[i] == x {
        assert (a + b)[i] == x;
      }
    }
  }

  lemma NamesAddUp(strings: seq<string>, longer: seq<string>, a: seq<nat>, b: seq<nat>, c: seq<nat>)
    requires strings <= longer && a <= b <= c && forall i :: 0 <= i < |b| ==> b[i] < |strings|
    ensures Names(longer, c[|a|..]) == Names(strings, b[|a|..]) + Names(longer, c[|b|..])
  {
    assert c[|a|..] == b[|a|..] + c[|b|..];
    NamesOfConcat(strings, longer, b[|a|..], c[|b|..]);
  }

  lemma ElementsAddUp<T>(a: seq<T>, b: seq<T>, c: seq<T>)
    requires a <= b <= c
    ensures Elements(c[|a|..]) == Elements(b[|a|..]) + Elements(c[|b|..])
  {
    assert c[|a|..] == b[|a|..] + c[|b|..];
    ElementsOfConcat(b[|a|..], c[|b|..]);
  }

  lemma MapGrowsTransitive<K, V>(m: map<K, V>, m': map<K, V>, m'': map<K, V>, a: set<K>, b: set<K>)
    requires MapGrows(m, m', a) && MapGrows(m', m'', b)
    ensures MapGrows(m, m'', a + b)
  {
  }

  lemma ExtendsTransitive(t: State, u: State, v: State)
    requires Extends(t, u) && Extends(u, v) && KeysLive(u)
    ensures Extends(t, v)
  {
    NamesAddUp(u.strings, v.strings, t.symbolsAfter, u.symbolsAfter, v.symbolsAfter);
    NamesAddUp(u.strings, v.strings, t.filesAfter, u.filesAfter, v.filesAfter);
    ElementsAddUp(t.extensionsAfter, u.extensionsAfter, v.extensionsAfter);
    MapGrowsTransitive(t.symbols, u.symbols, v.symbols, Names(u.strings, u.symbolsAfter[|t.symbolsAfter|..]),
                       Names(v.strings, v.symbolsAfter[|u.symbolsAfter|..]));
    MapGrowsTransitive(t.files, u.files, v.files, Names(u.strings, u.filesAfter[|t.filesAfter|..]),
                       Names(v.strings, v.filesAfter[|u.filesAfter|..]));
    MapGrowsTransitive(t.extensions, u.extensions, v.extensions, Elements(u.extensionsAfter[|t.extensionsAfter|..]),
                       Elements(v.extensionsAfter[|u.extensionsAfter|..]));
  }

  lemma SubtractUndoes<K, V>(m: map<K, V>, m': map<K, V>, added: set<K>)
    requires MapGrows(m, m', added)
    ensures m' - added == m
  {
  }

  /** Whatever was added since the checkpoint, rolling back restores the tables completely. */
  lemma RollbackRestores(t: State, t': State)
    requires Extends(AddCheckpointSpec(t), t')
    ensures CanRollback(t')
    ensures RollbackSpec(t') == t
  {
    SubtractUndoes(t.symbols, t'.symbols, Names(t'.strings, t'.symbolsAfter[|t.symbolsAfter|..]));
    SubtractUndoes(t.files, t'.files, Names(t'.strings, t'.filesAfter[|t.filesAfter|..]));
    SubtractUndoes(t.extensions, t'.extensions, Elements(t'.extensionsAfter[|t.extensionsAfter|..]));
    assert t'.checkpoints[..|t'.checkpoints| - 1] == t.checkpoints;
  }

  lemma AllocateStringExtends(t: State, s: string)
    requires KeysLive(t)
    ensures KeysLive(t.(strings := t.strings + [s])) && Extends(t, t.(strings := t.strings + [s]))
  {
  }

  lemma AddSymbolExtends(t: State, name: nat, symbol: Symbol)
    requires KeysLive(t) && name < |t.strings| && t.checkpoints != []
    ensures var t' := AddSymbolSpec(t, name, symbol).1; KeysLive(t') && Extends(t, t')
  {
    var (ok, t') := AddSymbolSpec(t, name, symbol);
    if ok {
      assert t'.symbolsAfter[|t.symbolsAfter|..] == [name];
      assert Names(t'.strings, [name]) == {t.strings[name]} by {
        assert [name][0] == name;
      }
    }
  }

  lemma AddFileExtends(t: State, name: nat, file: FileDescriptor)
    requires KeysLive(t) && name < |t.strings| && t.checkpoints != []
    ensures var t' := AddFileSpec(t, name, file).1; KeysLive(t') && Extends(t, t')
  {
    var (ok, t') := AddFileSpec(t, name, file);
    if ok {
      assert t'.filesAfter[|t.filesAfter|..] == [name];
      assert Names(t'.strings, [name]) == {t.strings[name]} by {
        assert [name][0] == name;
      }
    }
  }

  lemma AddExtensionExtends(t: State, key: FieldKey, field: ExtensionField)
    requires KeysLive(t) && t.checkpoints != []
    ensures var t' := AddExtensionSpec(t, key, field).1; KeysLive(t') && Extends(t, t')
  {
    var (ok, t') := AddExtensionSpec(t, key, field);
    if ok {
      assert t'.extensionsAfter[|t.extensionsAfter|..] == [key];
      assert Elements([key]) == {key} by {
        assert [key][0] == key;
      }
    }
  }

  /** A build that succeeds inside another one only removes its own checkpoint: its additions stay
      on the undo lists of the outer build. */
  lemma InnerCommitExtends(t: State, t': State)
    requires Extends(AddCheckpointSpec(t), t') && KeysLive(t') && t.checkpoints != []
    ensures ClearLastCheckpointSpec(t') == t'.(checkpoints := t.checkpoints)
    ensures Extends(t, ClearLastCheckpointSpec(t')) && KeysLive(ClearLastCheckpointSpec(t'))
  {
    assert t'.checkpoints[..|t'.checkpoints| - 1] == t.checkpoints;
  }

  // ----- Whole builds -----

  /** What can happen to the tables during one build; Build is a build nested in it. */
  datatype Op =
    | AllocateString(value: string)
    | AllocateMessage
    | AllocateFileTables
    | AllocateBytes
    | AddSymbol(name: nat, symbol: Symbol)
    | AddFile(name: nat, file: FileDescriptor)
    | AddExtension(key: FieldKey, field: ExtensionField)
    | Build(body: seq<Op>, commits: bool)

  function Exec(t: State, op: Op): State
    decreases op, 0
  {
    match op
    case AllocateString(value) => t.(strings := t.strings + [value])
    case AllocateMessage => t.(messages := t.messages + 1)
    case AllocateFileTables => t.(fileTables := t.fileTables + 1)
    case AllocateBytes => t.(allocations := t.allocations + 1)
    case AddSymbol(name, symbol) => if name < |t.strings| then AddSymbolSpec(t, name, symbol).1 else t
    case AddFile(name, file) => if name < |t.strings| then AddFileSpec(t, name, file).1 else t
    case AddExtension(key, field) => AddExtensionSpec(t, key, field).1
    case Build(body, commits) =>
      var t' := ExecAll(AddCheckpointSpec(t), body);
      if commits && t'.checkpoints != [] then ClearLastCheckpointSpec(t')
      else if CanRollback(t') then RollbackSpec(t') else t'
  }

  function ExecAll(t: State, ops: seq<Op>): State
    decreases ops, 1
  {
    if ops == [] then t else Exec(ExecAll(t, ops[..|ops| - 1]), ops[|ops| - 1])
  }

  lemma {:induction false} ExecExtends(t: State, op: Op)
    requires KeysLive(t) && t.checkpoints != []
    ensures KeysLive(Exec(t, op)) && Extends(t, Exec(t, op))
    decreases op, 0
  {
    if op.Build? {
      ExecAllExtends(AddCheckpointSpec(t), op.body);
      NestedBuildExtends(t, op.body, op.commits);
    } else {
      SingleOpExtends(t, op);
    }
  }

  lemma SingleOpExtends(t: State, op: Op)
    requires KeysLive(t) && t.checkpoints != [] && !op.Build?
    ensures KeysLive(Exec(t, op)) && Extends(t, Exec(t, op))
  {
    match op
    case AllocateString(value) => AllocateStringExtends(t, value);
    case AllocateMessage => CountersExtend(t, t.messages + 1, t.fileTables, t.allocations);
    case AllocateFileTables => CountersExtend(t, t.messages, t.fileTables + 1, t.allocations);
    case AllocateBytes => CountersExtend(t, t.messages, t.fileTables, t.allocations + 1);
    case AddSymbol(name, symbol) =>
      if name < |t.strings| {
        AddSymbolExtends(t, name, symbol);
      } else {
        ExtendsReflexive(t);
      }
    case AddFile(name, file) =>
      if name < |t.strings| {
        AddFileExtends(t, name, file);
      } else {
        ExtendsReflexive(t);
      }
    case AddExtension(key, field) => AddExtensionExtends(t, key, field);
  }

  lemma CountersExtend(t: State, messages: nat, fileTables: nat, allocations: nat)
    requires KeysLive(t) && t.messages <= messages && t.fileTables <= fileTables && t.allocations <= allocations
    ensures var t' := t.(messages := messages, fileTables := fileTables, allocations := allocations); KeysLive(t') && Extends(t, t')
  {
  }

  lemma NestedBuildExtends(t: State, body: seq<Op>, commits: bool)
    requires KeysLive(t) && t.checkpoints != []
    requires var t' := ExecAll(AddCheckpointSpec(t), body); KeysLive(t') && Extends(AddCheckpointSpec(t), t')
    ensures KeysLive(Exec(t, Build(body, commits))) && Extends(t, Exec(t, Build(body, commits)))
  {
    var t' := ExecAll(AddCheckpointSpec(t), body);
    if commits {
      InnerCommitExtends(t, t');
    } else {
      RollbackRestores(t, t');
      ExtendsReflexive(t);
    }
  }

  lemma {:induction false} ExecAllExtends(t: State, ops: seq<Op>)
    requires KeysLive(t) && t.checkpoints != []
    ensures KeysLive(ExecAll(t, ops)) && Extends(t, ExecAll(t, ops))
    decreases ops, 1
  {
    if ops == [] {
      ExtendsReflexive(t);
    } else {
      var before := ExecAll(t, ops[..|ops| - 1]);
      ExecAllExtends(t, ops[..|ops| - 1]);
      ExecExtends(before, ops[|ops| - 1]);
      ExtendsTransitive(t, before, ExecAll(t, ops));
    }
  }

  /** A build that fails, whatever it added and however many nested builds inside it had already
      succeeded, leaves the tables exactly as they were. */
  lemma FailedBuildChangesNothing(t: State, body: seq<Op>)
    requires KeysLive(t)
    ensures Exec(t, Build(body, false)) == t
  {
    ExecAllExtends(AddCheckpointSpec(t), body);
    RollbackRestores(t, ExecAll(AddCheckpointSpec(t), body));
  }

  /** A build that succeeds keeps everything that was there, empties the undo lists when it is the
      outermost one, and leaves no key without its string. */
  lemma SucceededBuildKeepsOld(t: State, body: seq<Op>)
    requires KeysLive(t)
    ensures var t' := Exec(t, Build(body, true));
            && KeysLive(t') && t'.checkpoints == t.checkpoints
            && (forall k :: k in t.symbols ==> k in t'.symbols && t'.symbols[k] == t.symbols[k])
            && (forall k :: k in t.files ==> k in t'.files && t'.files[k] == t.files[k])
            && (forall k :: k in t.extensions ==> k in t'.extensions && t'.extensions[k] == t.extensions[k])
  {
    var t1 := ExecAll(AddCheckpointSpec(t), body);
    ExecAllExtends(AddCheckpointSpec(t), body);
    assert t1.checkpoints[..|t1.checkpoints| - 1] == t.checkpoints;
  }

  // ----- The tables in memory -----

  class Tables {
    var pendingFiles: seq<string>
    var knownBadFiles: set<string>
    var knownBadSymbols: set<string>

    var symbolsByName: map<string, Keyed<Symbol>>
    var filesByName: map<string, Keyed<FileDescriptor>>
    var extensions: Extensions
    var strings: seq<string>
    var messages: nat
    var fileTables: nat
    var allocations: nat
    var checkpoints: seq<CheckPoint>
    var symbolsAfterCheckpoint: seq<nat>
    var filesAfterCheckpoint: seq<nat>
    var extensionsAfterCheckpoint: seq<FieldKey>

    function View(): State
      reads this
    {
      State(symbolsByName, filesByName, extensions, strings, messages, fileTables, allocations,
            checkpoints, symbolsAfterCheckpoint, filesAfterCheckpoint, extensionsAfterCheckpoint)
    }

    /** Everything but the three lists that belong to the loading of files. */
    twostate predicate LoadingUnchanged()
      reads this
    {
      pendingFiles == old(pendingFiles) && knownBadFiles == old(knownBadFiles) && knownBadSymbols == old(knownBadSymbols)
    }

    constructor ()
      ensures View() == State(map[], map[], map[], [], 0, 0, 0, [], [], [], [])
      ensures KeysLive(View())
      ensures pendingFiles == [] && knownBadFiles == {} && knownBadSymbols == {}
    {
      pendingFiles, knownBadFiles, knownBadSymbols := [], {}, {};
      symbolsByName, filesByName, extensions := map[], map[], map[];
      strings, messages, fileTables, allocations := [], 0, 0, 0;
      checkpoints, symbolsAfterCheckpoint, filesAfterCheckpoint, extensionsAfterCheckpoint := [], [], [], [];
    }

    method AddCheckpoint()
      modifies this
      ensures View() == AddCheckpointSpec(old(View())) && LoadingUnchanged()
    {
      checkpoints := checkpoints + [CheckPoint(|strings|, messages, fileTables, allocations,
                                               |symbolsAfterCheckpoint|, |filesAfterCheckpoint|,
                                               |extensionsAfterCheckpoint|)];
    }

    method ClearLastCheckpoint()
      requires checkpoints != []
      modifies this
      ensures View() == ClearLastCheckpointSpec(old(View())) && LoadingUnchanged()
    {
      checkpoints := checkpoints[..|checkpoints| - 1];
      if checkpoints == [] {
        symbolsAfterCheckpoint := [];
        filesAfterCheckpoint := [];
        extensionsAfterCheckpoint := [];
      }
    }

    method RollbackToLastCheckpoint()
      requires CanRollback(View()) && KeysLive(View())
      modifies this
      ensures View() == RollbackSpec(old(View())) && LoadingUnchanged()
    {
      var checkpoint := checkpoints[|checkpoints| - 1];
      EraseAfter(checkpoint);
      CutBack(checkpoint);
    }

    /** Everything that has grown since the checkpoint is cut back, the checkpoint itself included. */
    method CutBack(checkpoint: CheckPoint)
      requires CanRollback(View()) && checkpoint == checkpoints[|checkpoints| - 1]
      modifies this`symbolsAfterCheckpoint, this`filesAfterCheckpoint, this`extensionsAfterCheckpoint, this`strings,
               this`messages, this`fileTables, this`allocations, this`checkpoints
      ensures View() == State(symbolsByName, filesByName, extensions, old(strings)[..checkpoint.strings],
                              checkpoint.messages, checkpoint.fileTables, checkpoint.allocations,
                              old(checkpoints)[..|old(checkpoints)| - 1],
                              old(symbolsAfterCheckpoint)[..checkpoint.pendingSymbols],
                              old(filesAfterCheckpoint)[..checkpoint.pendingFiles],
                              old(extensionsAfterCheckpoint)[..checkpoint.pendingExtensions])
    {
      symbolsAfterCheckpoint := symbolsAfterCheckpoint[..checkpoint.pendingSymbols];
      filesAfterCheckpoint := filesAfterCheckpoint[..checkpoint.pendingFiles];
      extensionsAfterCheckpoint := extensionsAfterCheckpoint[..checkpoint.pendingExtensions];
      strings := strings[..checkpoint.strings];
      messages := checkpoint.messages;
      fileTables := checkpoint.fileTables;
      allocations := checkpoint.allocations;
      checkpoints := checkpoints[..|checkpoints| - 1];
    }

    method AddKnownBadFile(name: string)
      modifies this`knownBadFiles
      ensures knownBadFiles == old(knownBadFiles) + {name}
      ensures View() == old(View())
    {
      knownBadFiles := knownBadFiles + {name};
    }

    method AddKnownBadSymbol(name: string)
      modifies this`knownBadSymbols
      ensures knownBadSymbols == old(knownBadSymbols) + {name}
      ensures View() == old(View())
    {
      knownBadSymbols := knownBadSymbols + {name};
    }

    method EraseAfter(checkpoint: CheckPoint)
      requires CanRollback(View()) && KeysLive(View()) && checkpoint == checkpoints[|checkpoints| - 1]
      modifies this`symbolsByName, this`filesByName, this`extensions
      ensures symbolsByName == old(symbolsByName) - Names(strings, symbolsAfterCheckpoint[checkpoint.pendingSymbols..])
      ensures filesByName == old(filesByName) - Names(strings, filesAfterCheckpoint[checkpoint.pendingFiles..])
      ensures extensions == old(extensions) - Elements(extensionsAfterCheckpoint[checkpoint.pendingExtensions..])
    {
      EraseSymbols(checkpoint.pendingSymbols);
      EraseFiles(checkpoint.pendingFiles);
      EraseExtensions(checkpoint.pendingExtensions);
    }

    method EraseSymbols(from: nat)
      requires from <= |symbolsAfterCheckpoint|
      requires forall i :: 0 <= i < |symbolsAfterCheckpoint| ==> symbolsAfterCheckpoint[i] < |strings|
      modifies this`symbolsByName
      ensures symbolsByName == old(symbolsByName) - Names(strings, symbolsAfterCheckpoint[from..])
    {
      for i := from to |symbolsAfterCheckpoint|
        invariant symbolsByName == old(symbolsByName) - Names(strings, symbolsAfterCheckpoint[from..i])
      {
        assert symbolsAfterCheckpoint[from..i + 1] == symbolsAfterCheckpoint[from..i] + [symbolsAfterCheckpoint[i]];
        NamesOfConcat(strings, strings, symbolsAfterCheckpoint[from..i], [symbolsAfterCheckpoint[i]]);
        NamesOfOne(strings, symbolsAfterCheckpoint[i]);
        symbolsByName := symbolsByName - {strings[symbolsAfterCheckpoint[i]]};
      }
      assert symbolsAfterCheckpoint[from..|symbolsAfterCheckpoint|] == symbolsAfterCheckpoint[from..];
    }

    method EraseFiles(from: nat)
      requires from <= |filesAfterCheckpoint|
      requires forall i :: 0 <= i < |filesAfterCheckpoint| ==> filesAfterCheckpoint[i] < |strings|
      modifies this`filesByName
      ensures filesByName == old(filesByName) - Names(strings, filesAfterCheckpoint[from..])
    {
      for i := from to |filesAfterCheckpoint|
        invariant filesByName == old(filesByName) - Names(strings, filesAfterCheckpoint[from..i])
      {
        assert filesAfterCheckpoint[from..i + 1] == filesAfterCheckpoint[from..i] + [filesAfterCheckpoint[i]];
        NamesOfConcat(strings, strings, filesAfterCheckpoint[from..i], [filesAfterCheckpoint[i]]);
        NamesOfOne(strings, filesAfterCheckpoint[i]);
        filesByName := filesByName - {strings[filesAfterCheckpoint[i]]};
      }
      assert filesAfterCheckpoint[from..|filesAfterCheckpoint|] == filesAfterCheckpoint[from..];
    }

    method EraseExtensions(from: nat)
      requires from <= |extensionsAfterCheckpoint|
      modifies this`extensions
      ensures extensions == old(extensions) - Elements(extensionsAfterCheckpoint[from..])
    {
      for i := from to |extensionsAfterCheckpoint|
        invariant extensions == old(extensions) - Elements(extensionsAfterCheckpoint[from..i])
      {
        assert extensionsAfterCheckpoint[from..i + 1] == extensionsAfterCheckpoint[from..i] + [extensionsAfterCheckpoint[i]];
        ElementsOfConcat(extensionsAfterCheckpoint[from..i], [extensionsAfterCheckpoint[i]]);
        assert Elements([extensionsAfterCheckpoint[i]]) == {extensionsAfterCheckpoint[i]} by {
          assert [extensionsAfterCheckpoint[i]][0] == extensionsAfterCheckpoint[i];
        }
        extensions := extensions - {extensionsAfterCheckpoint[i]};
      }
      assert extensionsAfterCheckpoint[from..|extensionsAfterCheckpoint|] == extensionsAfterCheckpoint[from..];
    }

    method AllocateString(value: string) returns (pointer: nat)
      modifies this`strings
      ensures View() == old(View()).(strings := old(strings) + [value])
      ensures pointer == |old(strings)|
    {
      pointer := |strings|;
      strings := strings + [value];
    }

    method AddSymbol(name: nat, symbol: Symbol) returns (ok: bool)
      requires name < |strings|
      modifies this
      ensures (ok, View()) == AddSymbolSpec(old(View()), name, symbol) && LoadingUnchanged()
    {
      if strings[name] in symbolsByName {
        return false;
      }
      symbolsByName := symbolsByName[strings[name] := Keyed(name, symbol)];
      symbolsAfterCheckpoint := symbolsAfterCheckpoint + [name];
      return true;
    }

    method AddFile(name: nat, file: FileDescriptor) returns (ok: bool)
      requires name < |strings|
      modifies this
      ensures (ok, View()) == AddFileSpec(old(View()), name, file) && LoadingUnchanged()
    {
      if strings[name] in filesByName {
        return false;
      }
      filesByName := filesByName[strings[name] := Keyed(name, file)];
      filesAfterCheckpoint := filesAfterCheckpoint + [name];
      return true;
    }

    method AddExtension(key: FieldKey, field: ExtensionField) returns (ok: bool)
      modifies this
      ensures (ok, View()) == AddExtensionSpec(old(View()), key, field) && LoadingUnchanged()
    {
      if key in extensions {
        return false;
      }
      extensions := extensions[key := field];
      extensionsAfterCheckpoint := extensionsAfterCheckpoint + [key];
      return true;
    }
  }

  lemma NamesOfOne(strings: seq<string>, pointer: nat)
    requires pointer < |strings|
    ensures Names(strings, [pointer]) == {strings[pointer]}
  {
    assert [pointer][0] == pointer;
  }
}
