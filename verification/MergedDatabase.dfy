/** MergedDescriptorDatabase: several databases searched in order, where an earlier source hides the
    later files of the same name. */
module MergedDatabases {
  import opened Options
  import opened DescriptorIndexes

  type File = FileProto

  /** What the merger asks of a source: its three finders. */
  datatype Source = Source(byName: string -> Option<File>,
                           bySymbol: string -> Option<File>,
                           byExtension: (string, int) -> Option<File>)

  /** A file the source finds by symbol or extension is the one it finds by that file's name. */
  ghost predicate Consistent(s: Source) {
    && (forall name :: s.bySymbol(name).Some? ==> s.byName(s.bySymbol(name).value.name) == s.bySymbol(name))
    && (forall t, n :: s.byExtension(t, n).Some? ==> s.byName(s.byExtension(t, n).value.name) == s.byExtension(t, n))
  }

  /** The first source that knows the file decides. */
  function FindByName(sources: seq<Source>, filename: string): Option<File> {
    if sources == [] then None
    else if sources[0].byName(filename).Some? then sources[0].byName(filename)
    else FindByName(sources[1..], filename)
  }

  lemma {:induction false} FindByNameFirst(sources: seq<Source>, filename: string, i: nat)
    requires i < |sources|
    requires forall j :: 0 <= j < i ==> sources[j].byName(filename) == None
    ensures sources[i].byName(filename).Some? ==> FindByName(sources, filename) == sources[i].byName(filename)
    decreases |sources|
  {
    if i > 0 {
      assert sources[0].byName(filename) == None;
      FindByNameFirst(sources[1..], filename, i - 1);
    }
  }

  /** A file that is found is the answer of some source. */
  lemma {:induction false} FoundIsAnswered(sources: seq<Source>, filename: string)
    ensures FindByName(sources, filename).Some? <==> exists i :: 0 <= i < |sources| && sources[i].byName(filename).Some?
    ensures FindByName(sources, filename).Some? ==>
              exists i :: 0 <= i < |sources| && sources[i].byName(filename) == FindByName(sources, filename)
    decreases |sources|
  {
    if sources != [] {
      FoundIsAnswered(sources[1..], filename);
      assert forall i :: 0 < i < |sources| ==> sources[i] == sources[1..][i - 1];
    }
  }

  method FindFileByName(sources: seq<Source>, filename: string) returns (r: Option<File>)
    ensures r == FindByName(sources, filename)
  {
    for i := 0 to |sources|
      invariant FindByName(sources, filename) == FindByName(sources[i..], filename)
    {
      assert sources[i..][1..] == sources[i + 1..];
      if sources[i].byName(filename).Some? {
        return sources[i].byName(filename);
      }
    }
    return None;
  }

  /** The answer of source i, hidden when an earlier source has a file of that name. */
  ghost predicate Answers(sources: seq<Source>, find: Source -> Option<File>, i: nat, r: Option<File>)
    requires i < |sources|
  {
    && find(sources[i]).Some?
    && (forall j :: 0 <= j < i ==> find(sources[j]) == None)
    && r == (if forall j :: 0 <= j < i ==> sources[j].byName(find(sources[i]).value.name) == None
             then find(sources[i]) else None)
  }

  /** The answer of the first source that has one, unless it is hidden; nothing when none has. */
  ghost predicate IsFirstAnswer(sources: seq<Source>, find: Source -> Option<File>, r: Option<File>) {
    if forall i :: 0 <= i < |sources| ==> find(sources[i]) == None then r == None
    else exists i :: 0 <= i < |sources| && Answers(sources, find, i, r)
  }

  function BySymbol(symbol: string): Source -> Option<File> {
    (s: Source) => s.bySymbol(symbol)
  }

  function ByExtension(containingType: string, number: int): Source -> Option<File> {
    (s: Source) => s.byExtension(containingType, number)
  }

  /** The search loop of FindFileContainingSymbol and FindFileContainingExtension; find is the
      source's own finder. */
  method FindFileContaining(sources: seq<Source>, find: Source -> Option<File>) returns (r: Option<File>)
    ensures IsFirstAnswer(sources, find, r)
  {
    for i := 0 to |sources|
      invariant forall j :: 0 <= j < i ==> find(sources[j]) == None
    {
      if find(sources[i]).Some? {
        var output := find(sources[i]).value;
        for j := 0 to i
          invariant forall l :: 0 <= l < j ==> sources[l].byName(output.name) == None
        {
          if sources[j].byName(output.name).Some? {
            assert Answers(sources, find, i, None);
            return None;
          }
        }
        assert Answers(sources, find, i, Some(output));
        return Some(output);
      }
    }
    return None;
  }

  method FindFileContainingSymbol(sources: seq<Source>, symbol: string) returns (r: Option<File>)
    requires forall i :: 0 <= i < |sources| ==> Consistent(sources[i])
    ensures r.Some? ==> FindByName(sources, r.value.name) == r
    ensures IsFirstAnswer(sources, BySymbol(symbol), r)
  {
    var find := BySymbol(symbol);
    r := FindFileContaining(sources, find);
    if r.Some? {
      ghost var i :| 0 <= i < |sources| && Answers(sources, find, i, r);
      FindByNameFirst(sources, r.value.name, i);
    }
  }

  method FindFileContainingExtension(sources: seq<Source>, containingType: string, number: int) returns (r: Option<File>)
    requires forall i :: 0 <= i < |sources| ==> Consistent(sources[i])
    ensures r.Some? ==> FindByName(sources, r.value.name) == r
    ensures IsFirstAnswer(sources, ByExtension(containingType, number), r)
  {
    var find := ByExtension(containingType, number);
    r := FindFileContaining(sources, find);
    if r.Some? {
      ghost var i :| 0 <= i < |sources| && Answers(sources, find, i, r);
      FindByNameFirst(sources, r.value.name, i);
    }
  }

  // ----- The simple database as a source -----

  function AsSource(ix: Index<File>): Source {
    Source(name => if name in ix.byName then Some(ix.byName[name]) else None,
           name => FindSymbolSpec(ix.bySymbol, name),
           (t, n) => if (t, n) in ix.byExtension then Some(ix.byExtension[(t, n)]) else None)
  }

  /** The database's files, whatever AddFile calls built it, make a consistent source. */
  lemma SimpleSourceIsConsistent(ix: Index<File>)
    requires DescriptorIndexes.Consistent(ix)
    ensures Consistent(AsSource(ix))
  {
    var s := AsSource(ix);
    forall name | s.bySymbol(name).Some?
      ensures s.byName(s.bySymbol(name).value.name) == s.bySymbol(name)
    {
      assert HasEntry(ix.bySymbol, ix.bySymbol[LastLessOrEqual(ix.bySymbol, name)]);
    }
  }

  function AddFiles(ix: Index<File>, files: seq<File>): Index<File> {
    if files == [] then ix else AddFileSpec(AddFiles(ix, files[..|files| - 1]), files[|files| - 1], files[|files| - 1]).1
  }

  lemma {:induction false} BuiltSourceIsConsistent(files: seq<File>)
    ensures DescriptorIndexes.Consistent(AddFiles(Index(map[], [], map[]), files))
    ensures Consistent(AsSource(AddFiles(Index(map[], [], map[]), files)))
  {
    if files != [] {
      BuiltSourceIsConsistent(files[..|files| - 1]);
      AddFileKeepsConsistent(AddFiles(Index(map[], [], map[]), files[..|files| - 1]), files[|files| - 1]);
    }
    SimpleSourceIsConsistent(AddFiles(Index(map[], [], map[]), files));
  }
}
