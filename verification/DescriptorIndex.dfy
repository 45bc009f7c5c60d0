/** The symbol index of SimpleDescriptorDatabase: file names, symbols and extension numbers mapped to
    a value, with lookup of a symbol through the key that is a dot-prefix of it. */
module DescriptorIndexes {
  import opened Options
  import opened SymbolNames

  datatype Entry<Value> = Entry(key: string, value: Value)

  /** The maps of the index. bySymbol lists its std::map in key order, so that an iterator is a
      position and the end iterator is the length. */
  datatype Index<Value> = Index(byName: map<string, Value>,
                                bySymbol: seq<Entry<Value>>,
                                byExtension: map<(string, int), Value>)

  // ----- Ordered lookup -----

  ghost predicate Sorted<Value>(es: seq<Entry<Value>>) {
    forall i, j :: 0 <= i < j < |es| ==> Less(es[i].key, es[j].key)
  }

  ghost predicate ValidKeys<Value>(es: seq<Entry<Value>>) {
    forall i :: 0 <= i < |es| ==> ValidName(es[i].key)
  }

  ghost predicate PrefixFree<Value>(es: seq<Entry<Value>>) {
    forall i, j :: 0 <= i < |es| && 0 <= j < |es| && i != j ==> !IsSubSymbol(es[i].key, es[j].key)
  }

  /** The invariant the header states for by_symbol_. */
  ghost predicate WellFormed<Value>(es: seq<Entry<Value>>) {
    Sorted(es) && ValidKeys(es) && PrefixFree(es)
  }

  /** The position of the first key greater than name. */
  function UpperBound<Value>(es: seq<Entry<Value>>, name: string): (i: nat)
    ensures i <= |es|
    ensures i < |es| ==> Less(name, es[i].key)
    ensures forall j :: 0 <= j < i ==> !Less(name, es[j].key)
  {
    if es == [] || Less(name, es[0].key) then 0 else 1 + UpperBound(es[1..], name)
  }

  function LastLessOrEqual<Value>(es: seq<Entry<Value>>, name: string): nat {
    var upper := UpperBound(es, name);
    if upper != 0 then upper - 1 else upper
  }

  function FindSymbolSpec<Value>(es: seq<Entry<Value>>, name: string): Option<Value> {
    var it := LastLessOrEqual(es, name);
    if it < |es| && IsSubSymbol(es[it].key, name) then Some(es[it].value) else None
  }

  lemma UpperBoundSplits<Value>(es: seq<Entry<Value>>, name: string, j: nat)
    requires Sorted(es) && UpperBound(es, name) <= j < |es|
    ensures Less(name, es[j].key)
  {
    var upper := UpperBound(es, name);
    if upper < j {
      LessIsTransitive(name, es[upper].key, es[j].key);
    }
  }

  /** Any key that is a dot-prefix of the search string is the one step 1 of the algorithm finds. */
  lemma MatchIsFound<Value>(es: seq<Entry<Value>>, name: string, m: nat)
    requires WellFormed(es) && m < |es| && IsSubSymbol(es[m].key, name)
    ensures LastLessOrEqual(es, name) == m
  {
    var upper := UpperBound(es, name);
    SubSymbolNotLess(es[m].key, name);
    if upper <= m {
      UpperBoundSplits(es, name, m);
    }
    var it := upper - 1;
    if m < it {
      LessIsStrict(es[m].key, es[it].key);
      BetweenIsSubSymbol(es[m].key, es[it].key, name);
    }
  }

  /** For any search string: the value of the one key that equals it or is a dot-prefix of it, and
      nothing exactly when there is no such key. */
  lemma FindSymbolIsExact<Value>(es: seq<Entry<Value>>, name: string)
    requires WellFormed(es)
    ensures FindSymbolSpec(es, name).Some? <==> exists m :: 0 <= m < |es| && IsSubSymbol(es[m].key, name)
    ensures forall m :: 0 <= m < |es| && IsSubSymbol(es[m].key, name) ==> FindSymbolSpec(es, name) == Some(es[m].value)
    ensures forall m, n | 0 <= m < |es| && 0 <= n < |es| :: IsSubSymbol(es[m].key, name) && IsSubSymbol(es[n].key, name) ==> m == n
  {
    forall m | 0 <= m < |es| && IsSubSymbol(es[m].key, name)
      ensures LastLessOrEqual(es, name) == m
    {
      MatchIsFound(es, name, m);
    }
  }

  // ----- Adding a symbol -----

  function Inserted<Value>(es: seq<Entry<Value>>, e: Entry<Value>): (r: seq<Entry<Value>>)
  {
    es[..UpperBound(es, e.key)] + [e] + es[UpperBound(es, e.key)..]
  }

  function AddSymbolSpec<Value>(es: seq<Entry<Value>>, name: string, value: Value): (bool, seq<Entry<Value>>) {
    if !ValidName(name) then (false, es)
    else
      var it := LastLessOrEqual(es, name);
      if it == |es| then (true, Inserted(es, Entry(name, value)))
      else if IsSubSymbol(es[it].key, name) then (false, es)
      else if it + 1 != |es| && IsSubSymbol(name, es[it + 1].key) then (false, es)
      else (true, Inserted(es, Entry(name, value)))
  }

  ghost predicate Conflicts<Value>(es: seq<Entry<Value>>, name: string) {
    exists i :: 0 <= i < |es| && (IsSubSymbol(es[i].key, name) || IsSubSymbol(name, es[i].key))
  }

  /** The case the code overlooks: the first key is a sub-symbol of a name that sorts before every
      key, so FindLastLessOrEqual answers with a greater key and the search starts one too late. */
  predicate Overlooked<Value>(es: seq<Entry<Value>>, name: string) {
    && es != []
    && Less(name, es[0].key)
    && IsSubSymbol(name, es[0].key)
    && !(|es| > 1 && IsSubSymbol(name, es[1].key))
  }

  /** A sub-symbol of name in the map is announced by the first key greater than name. */
  lemma SubSymbolsComeFirst<Value>(es: seq<Entry<Value>>, name: string, k: nat)
    requires Sorted(es) && ValidKeys(es) && k < |es|
    requires IsSubSymbol(name, es[k].key) && es[k].key != name
    ensures UpperBound(es, name) <= k && IsSubSymbol(name, es[UpperBound(es, name)].key)
  {
    var upper := UpperBound(es, name);
    SubSymbolNotLess(name, es[k].key);
    LessIsStrict(name, es[k].key);
    LessIsStrict(name, es[upper].key);
    if upper < k {
      LessIsStrict(es[upper].key, es[k].key);
      BetweenIsSubSymbol(name, es[upper].key, es[k].key);
    }
  }

  lemma InsertedIsSorted<Value>(es: seq<Entry<Value>>, e: Entry<Value>)
    requires Sorted(es) && forall i :: 0 <= i < |es| ==> es[i].key != e.key
    ensures Sorted(Inserted(es, e))
  {
    var upper := UpperBound(es, e.key);
    forall i | 0 <= i < |es|
      ensures i < upper ==> Less(es[i].key, e.key)
      ensures i >= upper ==> Less(e.key, es[i].key)
    {
      LessIsStrict(es[i].key, e.key);
      if i >= upper {
        UpperBoundSplits(es, e.key, i);
      }
    }
  }

  /** Conflicts, decided by the two neighbours of the name in key order. */
  lemma ConflictsAreAdjacent<Value>(es: seq<Entry<Value>>, name: string)
    requires WellFormed(es)
    ensures var upper := UpperBound(es, name);
            Conflicts(es, name) <==> (upper > 0 && IsSubSymbol(es[upper - 1].key, name))
                                     || (upper < |es| && IsSubSymbol(name, es[upper].key))
  {
    var upper := UpperBound(es, name);
    forall i | 0 <= i < |es| && (IsSubSymbol(es[i].key, name) || IsSubSymbol(name, es[i].key))
      ensures (upper > 0 && IsSubSymbol(es[upper - 1].key, name)) || (upper < |es| && IsSubSymbol(name, es[upper].key))
    {
      if IsSubSymbol(es[i].key, name) {
        MatchIsFound(es, name, i);
        SubSymbolNotLess(es[i].key, name);
      } else {
        SubSymbolsComeFirst(es, name, i);
      }
    }
  }

  /** AddSymbol on a well-formed index, for every name: an invalid name is refused; a valid one is
      accepted exactly when nothing conflicts or the conflict is overlooked; and the map invariant
      survives exactly when nothing was overlooked. */
  lemma AddSymbolIsExact<Value>(es: seq<Entry<Value>>, name: string, value: Value)
    requires WellFormed(es)
    ensures var (ok, es') := AddSymbolSpec(es, name, value);
            && ok == (ValidName(name) && (!Conflicts(es, name) || Overlooked(es, name)))
            && es' == (if ok then Inserted(es, Entry(name, value)) else es)
            && (WellFormed(es') <==> !(ValidName(name) && Overlooked(es, name)))
  {
    var upper := UpperBound(es, name);
    var (ok, es') := AddSymbolSpec(es, name, value);
    ConflictsAreAdjacent(es, name);
    if upper == 0 && es != [] {
      FirstKeyIsGreater(es, name);
    } else if upper > 0 {
      LessIsStrict(name, es[0].key);
    }
    if ok {
      if Overlooked(es, name) {
        assert es'[0].key == name && es'[1] == es[0];
      } else {
        InsertKeepsInvariant(es, Entry(name, value));
      }
    }
  }

  lemma FirstKeyIsGreater<Value>(es: seq<Entry<Value>>, name: string)
    requires WellFormed(es) && es != [] && UpperBound(es, name) == 0
    ensures LastLessOrEqual(es, name) == 0 && !IsSubSymbol(es[0].key, name)
    ensures |es| > 1 && IsSubSymbol(name, es[1].key) ==> IsSubSymbol(name, es[0].key)
  {
    if IsSubSymbol(es[0].key, name) {
      SubSymbolNotLess(es[0].key, name);
    }
    if |es| > 1 && IsSubSymbol(name, es[1].key) {
      LessIsStrict(es[0].key, es[1].key);
      LessIsStrict(name, es[0].key);
      BetweenIsSubSymbol(name, es[0].key, es[1].key);
    }
  }

  lemma InsertedIsPrefixFree<Value>(es: seq<Entry<Value>>, e: Entry<Value>)
    requires PrefixFree(es)
    requires forall i :: 0 <= i < |es| ==> !IsSubSymbol(es[i].key, e.key) && !IsSubSymbol(e.key, es[i].key)
    ensures PrefixFree(Inserted(es, e))
  {
    var upper, r := UpperBound(es, e.key), Inserted(es, e);
    forall i, j | 0 <= i < |r| && 0 <= j < |r| && i != j
      ensures !IsSubSymbol(r[i].key, r[j].key)
    {
      assert i != upper ==> r[i] == es[if i < upper then i else i - 1];
      assert j != upper ==> r[j] == es[if j < upper then j else j - 1];
    }
  }

  lemma InsertKeepsInvariant<Value>(es: seq<Entry<Value>>, e: Entry<Value>)
    requires WellFormed(es) && ValidName(e.key) && !Conflicts(es, e.key)
    ensures WellFormed(Inserted(es, e))
  {
    InsertedIsPrefixFree(es, e);
    InsertedIsSorted(es, e);
  }

  /** With a key that does not sort after the name, or an empty map, nothing is overlooked. */
  lemma GuardedAddKeepsInvariant<Value>(es: seq<Entry<Value>>, name: string, value: Value)
    requires WellFormed(es)
    requires es == [] || !Less(name, es[0].key)
    ensures var (ok, es') := AddSymbolSpec(es, name, value);
            WellFormed(es') && ok == (ValidName(name) && !Conflicts(es, name))
  {
    AddSymbolIsExact(es, name, value);
  }

  /** {"foo.bar"} accepts "foo". */
  lemma AddSymbolCounterexample<Value>(value: Value)
    ensures var es := [Entry("foo.bar", value)];
            && WellFormed(es) && Conflicts(es, "foo")
            && AddSymbolSpec(es, "foo", value).0
            && !WellFormed(AddSymbolSpec(es, "foo", value).1)
  {
    var es := [Entry("foo.bar", value)];
    assert "foo" <= "foo.bar" && IsSubSymbol("foo", es[0].key);
    SubSymbolNotLess("foo", es[0].key);
    LessIsStrict("foo", es[0].key);
    AddSymbolIsExact(es, "foo", value);
  }

  // ----- Adding a file -----

  datatype Extension = Extension(name: string, extendee: string, number: int)
  datatype Message = Message(name: string, nested: seq<Message>, extensions: seq<Extension>)
  datatype FileProto = FileProto(name: string, package: Option<string>, messages: seq<Message>,
                                 enums: seq<string>, extensions: seq<Extension>, services: seq<string>)

  /** What AddFile registers, in the order in which it does so. */
  datatype Item = SymbolItem(name: string) | ExtensionItem(extendee: string, number: int)

  function ExtensionItems(es: seq<Extension>): seq<Item> {
    if es == [] then [] else [ExtensionItem(es[0].extendee, es[0].number)] + ExtensionItems(es[1..])
  }

  function NestedItems(m: Message): seq<Item>
    decreases m, 1
  {
    NestedItemsOf(m.nested) + ExtensionItems(m.extensions)
  }

  function NestedItemsOf(ms: seq<Message>): seq<Item>
    decreases ms, 0
  {
    if ms == [] then [] else NestedItems(ms[0]) + NestedItemsOf(ms[1..])
  }

  function MessageItems(path: string, ms: seq<Message>): seq<Item> {
    if ms == [] then []
    else [SymbolItem(path + ms[0].name)] + (NestedItems(ms[0]) + MessageItems(path, ms[1..]))
  }

  function NameItems(path: string, names: seq<string>): seq<Item> {
    if names == [] then [] else [SymbolItem(path + names[0])] + NameItems(path, names[1..])
  }

  function TopExtensionItems(path: string, es: seq<Extension>): seq<Item> {
    if es == [] then []
    else [SymbolItem(path + es[0].name)]
         + ([ExtensionItem(es[0].extendee, es[0].number)] + TopExtensionItems(path, es[1..]))
  }

  function Path(file: FileProto): string {
    if file.package.Some? && file.package.value != "" then file.package.value + "." else ""
  }

  function FileItems(file: FileProto): seq<Item> {
    var path := Path(file);
    MessageItems(path, file.messages)
    + (NameItems(path, file.enums) + (TopExtensionItems(path, file.extensions) + NameItems(path, file.services)))
  }

  function AddExtensionSpec<Value>(ix: Index<Value>, extendee: string, number: int, value: Value): (bool, Index<Value>) {
    if extendee != "" && extendee[0] == '.' then
      if (extendee[1..], number) in ix.byExtension then (false, ix)
      else (true, ix.(byExtension := ix.byExtension[(extendee[1..], number) := value]))
    else (true, ix)
  }

  function AddItem<Value>(ix: Index<Value>, item: Item, value: Value): (bool, Index<Value>) {
    match item
    case SymbolItem(name) =>
      var (ok, es) := AddSymbolSpec(ix.bySymbol, name, value);
      (ok, ix.(bySymbol := es))
    case ExtensionItem(extendee, number) => AddExtensionSpec(ix, extendee, number, value)
  }

  /** Register items until one is refused. */
  function AddItems<Value>(ix: Index<Value>, items: seq<Item>, value: Value): (bool, Index<Value>)
    decreases |items|
  {
    if items == [] then (true, ix)
    else
      var (ok, ix') := AddItem(ix, items[0], value);
      if ok then AddItems(ix', items[1..], value) else (false, ix')
  }

  function AddFileSpec<Value>(ix: Index<Value>, file: FileProto, value: Value): (bool, Index<Value>) {
    if file.name in ix.byName then (false, ix)
    else AddItems(ix.(byName := ix.byName[file.name := value]), FileItems(file), value)
  }

  /** A refused prefix decides; an accepted one hands its index on. */
  lemma {:induction false} AddItemsSplit<Value>(ix: Index<Value>, a: seq<Item>, b: seq<Item>, value: Value)
    ensures AddItems(ix, a + b, value)
         == if AddItems(ix, a, value).0 then AddItems(AddItems(ix, a, value).1, b, value) else AddItems(ix, a, value)
    decreases |a|
  {
    if a == [] {
      assert a + b == b;
    } else {
      assert (a + b)[1..] == a[1..] + b;
      AddItemsSplit(AddItem(ix, a[0], value).1, a[1..], b, value);
    }
  }

  class DescriptorIndex<Value(==)> {
    var byName: map<string, Value>
    var bySymbol: seq<Entry<Value>>
    var byExtension: map<(string, int), Value>

    function View(): Index<Value>
      reads this
    {
      Index(byName, bySymbol, byExtension)
    }

    constructor ()
      ensures View() == Index(map[], [], map[])
    {
      byName, bySymbol, byExtension := map[], [], map[];
    }

    /** upper_bound, then one step back unless that is the beginning. */
    method FindLastLessOrEqual(name: string) returns (it: nat)
      ensures it == LastLessOrEqual(bySymbol, name)
      ensures it <= |bySymbol|
    {
      it := UpperBound(bySymbol, name);
      if it != 0 {
        it := it - 1;
      }
    }

    method FindSymbol(name: string) returns (r: Option<Value>)
      ensures r == FindSymbolSpec(bySymbol, name)
    {
      var it := FindLastLessOrEqual(name);
      r := if it != |bySymbol| && IsSubSymbol(bySymbol[it].key, name) then Some(bySymbol[it].value) else None;
    }

    method AddSymbol(name: string, value: Value) returns (ok: bool)
      modifies this`bySymbol
      ensures (ok, bySymbol) == AddSymbolSpec(old(bySymbol), name, value)
    {
      if !ValidName(name) {
        return false;
      }
      var it := FindLastLessOrEqual(name);
      if it == |bySymbol| {
        bySymbol := Inserted(bySymbol, Entry(name, value));
        return true;
      }
      if IsSubSymbol(bySymbol[it].key, name) {
        return false;
      }
      it := it + 1;
      if it != |bySymbol| && IsSubSymbol(name, bySymbol[it].key) {
        return false;
      }
      bySymbol := Inserted(bySymbol, Entry(name, value));
      return true;
    }

    method AddExtension(field: Extension, value: Value) returns (ok: bool)
      modifies this`byExtension
      ensures (ok, View()) == AddExtensionSpec(old(View()), field.extendee, field.number, value)
    {
      if field.extendee != "" && field.extendee[0] == '.' {
        var key := (field.extendee[1..], field.number);
        if key in byExtension {
          return false;
        }
        byExtension := byExtension[key := value];
      }
      return true;
    }

    method AddNestedExtensions(m: Message, value: Value) returns (ok: bool)
      modifies this
      ensures (ok, View()) == AddItems(old(View()), NestedItems(m), value)
      decreases m
    {
      ghost var start := View();
      for i := 0 to |m.nested|
        invariant AddItems(start, NestedItemsOf(m.nested), value) == AddItems(View(), NestedItemsOf(m.nested[i..]), value)
      {
        NestedStep(View(), m.nested, i, value);
        ok := AddNestedExtensions(m.nested[i], value);
        if !ok {
          AddItemsSplit(start, NestedItemsOf(m.nested), ExtensionItems(m.extensions), value);
          return;
        }
      }
      AddItemsSplit(start, NestedItemsOf(m.nested), ExtensionItems(m.extensions), value);
      for i := 0 to |m.extensions|
        invariant AddItems(start, NestedItems(m), value) == AddItems(View(), ExtensionItems(m.extensions[i..]), value)
      {
        ExtensionStep(View(), m.extensions, i, value);
        ok := AddExtension(m.extensions[i], value);
        if !ok {
          return;
        }
      }
      ok := true;
    }

    method AddMessages(path: string, ms: seq<Message>, value: Value) returns (ok: bool)
      modifies this
      ensures (ok, View()) == AddItems(old(View()), MessageItems(path, ms), value)
    {
      ghost var start := View();
      for i := 0 to |ms|
        invariant AddItems(start, MessageItems(path, ms), value) == AddItems(View(), MessageItems(path, ms[i..]), value)
      {
        MessageStep(View(), path, ms, i, value);
        ok := AddSymbol(path + ms[i].name, value);
        if !ok {
          return;
        }
        AddItemsSplit(View(), NestedItems(ms[i]), MessageItems(path, ms[i + 1..]), value);
        ok := AddNestedExtensions(ms[i], value);
        if !ok {
          return;
        }
      }
      ok := true;
    }

    /** The loops over enums and over services. */
    method AddNames(path: string, names: seq<string>, value: Value) returns (ok: bool)
      modifies this`bySymbol
      ensures (ok, View()) == AddItems(old(View()), NameItems(path, names), value)
    {
      ghost var start := View();
      for i := 0 to |names|
        invariant AddItems(start, NameItems(path, names), value) == AddItems(View(), NameItems(path, names[i..]), value)
      {
        NameStep(View(), path, names, i, value);
        ok := AddSymbol(path + names[i], value);
        if !ok {
          return;
        }
      }
      ok := true;
    }

    method AddExtensions(path: string, es: seq<Extension>, value: Value) returns (ok: bool)
      modifies this
      ensures (ok, View()) == AddItems(old(View()), TopExtensionItems(path, es), value)
    {
      ghost var start := View();
      for i := 0 to |es|
        invariant AddItems(start, TopExtensionItems(path, es), value)
               == AddItems(View(), TopExtensionItems(path, es[i..]), value)
      {
        TopExtensionStep(View(), path, es, i, value);
        ok := AddSymbol(path + es[i].name, value);
        if !ok {
          return;
        }
        ok := AddExtension(es[i], value);
        if !ok {
          return;
        }
      }
      ok := true;
    }

    method AddFile(file: FileProto, value: Value) returns (ok: bool)
      modifies this
      ensures (ok, View()) == AddFileSpec(old(View()), file, value)
    {
      if file.name in byName {
        return false;
      }
      byName := byName[file.name := value];
      var path := if file.package.Some? then file.package.value else "";
      if path != "" {
        path := path + ".";
      }
      FileSplit(View(), file, value);
      ok := AddMessages(path, file.messages, value);
      if !ok {
        return;
      }
      ok := AddNames(path, file.enums, value);
      if !ok {
        return;
      }
      ok := AddExtensions(path, file.extensions, value);
      if !ok {
        return;
      }
      ok := AddNames(path, file.services, value);
    }
  }

  // ----- One round of each registration loop -----

  function Then<Value>(step: (bool, Index<Value>), items: seq<Item>, value: Value): (bool, Index<Value>) {
    if step.0 then AddItems(step.1, items, value) else step
  }

  lemma ExtensionStep<Value>(ix: Index<Value>, es: seq<Extension>, i: nat, value: Value)
    requires i < |es|
    ensures AddItems(ix, ExtensionItems(es[i..]), value)
         == Then(AddExtensionSpec(ix, es[i].extendee, es[i].number, value), ExtensionItems(es[i + 1..]), value)
  {
    assert es[i..][1..] == es[i + 1..];
    assert ExtensionItems(es[i..])[1..] == ExtensionItems(es[i + 1..]);
  }

  lemma NameStep<Value>(ix: Index<Value>, path: string, names: seq<string>, i: nat, value: Value)
    requires i < |names|
    ensures AddItems(ix, NameItems(path, names[i..]), value)
         == Then(AddItem(ix, SymbolItem(path + names[i]), value), NameItems(path, names[i + 1..]), value)
  {
    assert names[i..][1..] == names[i + 1..];
    assert NameItems(path, names[i..])[1..] == NameItems(path, names[i + 1..]);
  }

  lemma TopExtensionStep<Value>(ix: Index<Value>, path: string, es: seq<Extension>, i: nat, value: Value)
    requires i < |es|
    ensures AddItems(ix, TopExtensionItems(path, es[i..]), value)
         == var (ok, ix') := AddItem(ix, SymbolItem(path + es[i].name), value);
            if !ok then (false, ix')
            else Then(AddExtensionSpec(ix', es[i].extendee, es[i].number, value), TopExtensionItems(path, es[i + 1..]), value)
  {
    assert es[i..][1..] == es[i + 1..];
    var tail := [ExtensionItem(es[i].extendee, es[i].number)] + TopExtensionItems(path, es[i + 1..]);
    assert TopExtensionItems(path, es[i..])[1..] == tail;
    assert tail[1..] == TopExtensionItems(path, es[i + 1..]);
  }

  lemma MessageStep<Value>(ix: Index<Value>, path: string, ms: seq<Message>, i: nat, value: Value)
    requires i < |ms|
    ensures AddItems(ix, MessageItems(path, ms[i..]), value)
         == Then(AddItem(ix, SymbolItem(path + ms[i].name), value),
                 NestedItems(ms[i]) + MessageItems(path, ms[i + 1..]), value)
  {
    assert ms[i..][1..] == ms[i + 1..];
    assert MessageItems(path, ms[i..])[1..] == NestedItems(ms[i]) + MessageItems(path, ms[i + 1..]);
  }

  lemma NestedStep<Value>(ix: Index<Value>, ms: seq<Message>, i: nat, value: Value)
    requires i < |ms|
    ensures AddItems(ix, NestedItemsOf(ms[i..]), value)
         == Then(AddItems(ix, NestedItems(ms[i]), value), NestedItemsOf(ms[i + 1..]), value)
  {
    assert ms[i..][1..] == ms[i + 1..];
    AddItemsSplit(ix, NestedItems(ms[i]), NestedItemsOf(ms[i + 1..]), value);
  }

  lemma FileSplit<Value>(ix: Index<Value>, file: FileProto, value: Value)
    ensures AddItems(ix, FileItems(file), value)
         == var r1 := AddItems(ix, MessageItems(Path(file), file.messages), value);
            var r2 := Then(r1, NameItems(Path(file), file.enums), value);
            var r3 := Then(r2, TopExtensionItems(Path(file), file.extensions), value);
            Then(r3, NameItems(Path(file), file.services), value)
  {
    var a, b := MessageItems(Path(file), file.messages), NameItems(Path(file), file.enums);
    var c, d := TopExtensionItems(Path(file), file.extensions), NameItems(Path(file), file.services);
    AddItemsSplit(ix, a, b + (c + d), value);
    AddItemsSplit(AddItems(ix, a, value).1, b, c + d, value);
    AddItemsSplit(Then(AddItems(ix, a, value), b, value).1, c, d, value);
  }

  // ----- What registration keeps and promises -----

  ghost predicate HasEntry<Value>(es: seq<Entry<Value>>, e: Entry<Value>) {
    exists i :: 0 <= i < |es| && es[i] == e
  }

  lemma InsertedEntries<Value>(es: seq<Entry<Value>>, e: Entry<Value>, x: Entry<Value>)
    ensures HasEntry(Inserted(es, e), x) <==> x == e || HasEntry(es, x)
  {
    var upper, r := UpperBound(es, e.key), Inserted(es, e);
    assert r[upper] == e;
    if i :| 0 <= i < |es| && es[i] == x {
      assert r[if i < upper then i else i + 1] == x;
    }
    if i :| 0 <= i < |r| && r[i] == x {
      assert x == e || es[if i < upper then i else i - 1] == x;
    }
  }

  /** Registration only ever adds, file names stay, and every new symbol or extension carries the
      value being registered; this holds of a run that is refused part way, too. */
  lemma {:induction false} AddItemsOnlyAdds<Value>(ix: Index<Value>, items: seq<Item>, value: Value)
    ensures var ix' := AddItems(ix, items, value).1;
            && ix'.byName == ix.byName
            && (forall x :: HasEntry(ix.bySymbol, x) ==> HasEntry(ix'.bySymbol, x))
            && (forall x :: HasEntry(ix'.bySymbol, x) ==> HasEntry(ix.bySymbol, x) || x.value == value)
            && (forall k :: k in ix'.byExtension ==>
                  ix'.byExtension[k] == (if k in ix.byExtension then ix.byExtension[k] else value))
            && ix.byExtension.Keys <= ix'.byExtension.Keys
    decreases |items|
  {
    if items != [] {
      var (ok, ix1) := AddItem(ix, items[0], value);
      if items[0].SymbolItem? && ok {
        forall x
          ensures HasEntry(ix1.bySymbol, x) <==> x == Entry(items[0].name, value) || HasEntry(ix.bySymbol, x)
        {
          InsertedEntries(ix.bySymbol, Entry(items[0].name, value), x);
        }
      }
      if ok {
        AddItemsOnlyAdds(ix1, items[1..], value);
      }
    }
  }

  lemma {:induction false} AcceptedItemsArePresent<Value>(ix: Index<Value>, items: seq<Item>, value: Value, k: nat)
    requires AddItems(ix, items, value).0 && k < |items|
    ensures var ix' := AddItems(ix, items, value).1;
            match items[k]
            case SymbolItem(name) => HasEntry(ix'.bySymbol, Entry(name, value))
            case ExtensionItem(extendee, number) =>
              extendee != "" && extendee[0] == '.' ==>
                (extendee[1..], number) in ix'.byExtension && ix'.byExtension[(extendee[1..], number)] == value
    decreases |items|
  {
    var ix1 := AddItem(ix, items[0], value).1;
    if k > 0 {
      AcceptedItemsArePresent(ix1, items[1..], value, k - 1);
    } else {
      if items[0].SymbolItem? {
        InsertedEntries(ix.bySymbol, Entry(items[0].name, value), Entry(items[0].name, value));
      }
      AddItemsOnlyAdds(ix1, items[1..], value);
    }
  }

  /** Names that do not sort before the first key keep the map invariant, refused or not. */
  lemma {:induction false} GuardedItemsKeepInvariant<Value>(ix: Index<Value>, items: seq<Item>, value: Value)
    requires WellFormed(ix.bySymbol) && ix.bySymbol != []
    requires forall k :: 0 <= k < |items| && items[k].SymbolItem? ==> !Less(items[k].name, ix.bySymbol[0].key)
    ensures WellFormed(AddItems(ix, items, value).1.bySymbol)
    decreases |items|
  {
    if items != [] {
      var (ok, ix1) := AddItem(ix, items[0], value);
      if items[0].SymbolItem? {
        GuardedAddKeepsInvariant(ix.bySymbol, items[0].name, value);
        AddSymbolIsExact(ix.bySymbol, items[0].name, value);
      }
      if ok {
        assert ix1.bySymbol[0] == ix.bySymbol[0];
        GuardedItemsKeepInvariant(ix1, items[1..], value);
      }
    }
  }

  // ----- Which symbols and extensions a file has -----

  /** A message, enum, extension or service outside all messages is called s. */
  ghost predicate Declares(file: FileProto, s: string) {
    || (exists i :: 0 <= i < |file.messages| && file.messages[i].name == s)
    || (exists i :: 0 <= i < |file.enums| && file.enums[i] == s)
    || (exists i :: 0 <= i < |file.extensions| && file.extensions[i].name == s)
    || (exists i :: 0 <= i < |file.services| && file.services[i] == s)
  }

  /** The name within the package of the file, if it has one. */
  function Qualified(file: FileProto, s: string): string {
    match file.package
    case None => s
    case Some(package) => if package == "" then s else package + "." + s
  }

  ghost predicate HasExtension(es: seq<Extension>, extendee: string, number: int) {
    exists i :: 0 <= i < |es| && es[i].extendee == extendee && es[i].number == number
  }

  /** The message or one inside it, at any depth, defines such an extension. */
  ghost predicate ExtendsInside(m: Message, extendee: string, number: int)
    decreases m
  {
    HasExtension(m.extensions, extendee, number) || exists i :: 0 <= i < |m.nested| && ExtendsInside(m.nested[i], extendee, number)
  }

  ghost predicate Extends(file: FileProto, extendee: string, number: int) {
    || HasExtension(file.extensions, extendee, number)
    || exists i :: 0 <= i < |file.messages| && ExtendsInside(file.messages[i], extendee, number)
  }

  ghost predicate Has(items: seq<Item>, item: Item) {
    exists k :: 0 <= k < |items| && items[k] == item
  }

  lemma HasConcat(a: seq<Item>, b: seq<Item>, item: Item)
    ensures Has(a + b, item) <==> Has(a, item) || Has(b, item)
  {
    if k :| 0 <= k < |a| && a[k] == item {
      assert (a + b)[k] == item;
    }
    if k :| 0 <= k < |b| && b[k] == item {
      assert (a + b)[|a| + k] == item;
    }
  }

  lemma HasCons(first: Item, b: seq<Item>, item: Item)
    ensures Has([first] + b, item) <==> first == item || Has(b, item)
  {
    HasConcat([first], b, item);
    assert [first][0] == first;
  }

  lemma {:induction false} NamesHave(path: string, names: seq<string>, item: Item)
    ensures Has(NameItems(path, names), item) <==> exists i :: 0 <= i < |names| && SymbolItem(path + names[i]) == item
    decreases |names|
  {
    if names != [] {
      NamesHave(path, names[1..], item);
      HasCons(SymbolItem(path + names[0]), NameItems(path, names[1..]), item);
      assert forall i :: 0 < i < |names| ==> names[i] == names[1..][i - 1];
    }
  }

  lemma {:induction false} ExtensionsHave(es: seq<Extension>, item: Item)
    ensures Has(ExtensionItems(es), item) <==> item.ExtensionItem? && HasExtension(es, item.extendee, item.number)
    decreases |es|
  {
    if es != [] {
      ExtensionsHave(es[1..], item);
      HasCons(ExtensionItem(es[0].extendee, es[0].number), ExtensionItems(es[1..]), item);
      assert forall i :: 0 < i < |es| ==> es[i] == es[1..][i - 1];
    }
  }

  lemma {:induction false} NestedHave(m: Message, item: Item)
    ensures Has(NestedItems(m), item) <==> item.ExtensionItem? && ExtendsInside(m, item.extendee, item.number)
    decreases m, 1
  {
    NestedOfHave(m.nested, item);
    ExtensionsHave(m.extensions, item);
    HasConcat(NestedItemsOf(m.nested), ExtensionItems(m.extensions), item);
  }

  lemma {:induction false} NestedOfHave(ms: seq<Message>, item: Item)
    ensures Has(NestedItemsOf(ms), item)
       <==> item.ExtensionItem? && exists i :: 0 <= i < |ms| && ExtendsInside(ms[i], item.extendee, item.number)
    decreases ms, 0
  {
    if ms != [] {
      NestedHave(ms[0], item);
      NestedOfHave(ms[1..], item);
      HasConcat(NestedItems(ms[0]), NestedItemsOf(ms[1..]), item);
      assert forall i :: 0 < i < |ms| ==> ms[i] == ms[1..][i - 1];
    }
  }

  lemma {:induction false} MessagesHave(path: string, ms: seq<Message>, item: Item)
    ensures Has(MessageItems(path, ms), item)
       <==> (exists i :: 0 <= i < |ms| && SymbolItem(path + ms[i].name) == item)
            || (item.ExtensionItem? && exists i :: 0 <= i < |ms| && ExtendsInside(ms[i], item.extendee, item.number))
    decreases |ms|
  {
    if ms != [] {
      MessagesHave(path, ms[1..], item);
      NestedHave(ms[0], item);
      HasConcat(NestedItems(ms[0]), MessageItems(path, ms[1..]), item);
      HasCons(SymbolItem(path + ms[0].name), NestedItems(ms[0]) + MessageItems(path, ms[1..]), item);
      assert forall i :: 0 < i < |ms| ==> ms[i] == ms[1..][i - 1];
    }
  }

  lemma {:induction false} TopExtensionsHave(path: string, es: seq<Extension>, item: Item)
    ensures Has(TopExtensionItems(path, es), item)
       <==> (exists i :: 0 <= i < |es| && SymbolItem(path + es[i].name) == item)
            || (item.ExtensionItem? && HasExtension(es, item.extendee, item.number))
    decreases |es|
  {
    if es != [] {
      var rest := TopExtensionItems(path, es[1..]);
      TopExtensionsHave(path, es[1..], item);
      HasCons(ExtensionItem(es[0].extendee, es[0].number), rest, item);
      HasCons(SymbolItem(path + es[0].name), [ExtensionItem(es[0].extendee, es[0].number)] + rest, item);
      assert forall i :: 0 < i < |es| ==> es[i] == es[1..][i - 1];
    }
  }

  lemma PathQualifies(file: FileProto, s: string)
    ensures Path(file) + s == Qualified(file, s)
  {
  }

  /** What AddFile registers: the qualified names of what the file declares outside all messages, and
      the extensions that it defines anywhere. */
  lemma FileItemsAreDeclared(file: FileProto, item: Item)
    ensures Has(FileItems(file), item)
       <==> match item
            case SymbolItem(name) => exists s :: Declares(file, s) && name == Qualified(file, s)
            case ExtensionItem(extendee, number) => Extends(file, extendee, number)
  {
    var path := Path(file);
    var a, b := MessageItems(path, file.messages), NameItems(path, file.enums);
    var c, d := TopExtensionItems(path, file.extensions), NameItems(path, file.services);
    HasConcat(a, b + (c + d), item);
    HasConcat(b, c + d, item);
    HasConcat(c, d, item);
    MessagesHave(path, file.messages, item);
    NamesHave(path, file.enums, item);
    TopExtensionsHave(path, file.extensions, item);
    NamesHave(path, file.services, item);
    if item.SymbolItem? {
      forall s
        ensures SymbolItem(path + s) == item <==> Qualified(file, s) == item.name
      {
        PathQualifies(file, s);
      }
    }
  }

  /** After an accepted AddFile on a map that is still well formed, everything that the file declares
      outside all messages, and everything below it, is found by its qualified name and answers with
      the file's value. */
  lemma AcceptedFileIsFound<Value>(ix: Index<Value>, file: FileProto, value: Value, s: string, name: string)
    requires AddFileSpec(ix, file, value).0 && WellFormed(AddFileSpec(ix, file, value).1.bySymbol)
    requires Declares(file, s) && IsSubSymbol(Qualified(file, s), name)
    ensures FindSymbolSpec(AddFileSpec(ix, file, value).1.bySymbol, name) == Some(value)
  {
    var start := ix.(byName := ix.byName[file.name := value]);
    FileItemsAreDeclared(file, SymbolItem(Qualified(file, s)));
    var k :| 0 <= k < |FileItems(file)| && FileItems(file)[k] == SymbolItem(Qualified(file, s));
    AcceptedItemsArePresent(start, FileItems(file), value, k);
    FindSymbolIsExact(AddFileSpec(ix, file, value).1.bySymbol, name);
  }

  /** So do its extensions of fully qualified messages. */
  lemma AcceptedExtensionIsFound<Value>(ix: Index<Value>, file: FileProto, value: Value, extendee: string, number: int)
    requires AddFileSpec(ix, file, value).0 && Extends(file, "." + extendee, number)
    ensures var found := AddFileSpec(ix, file, value).1.byExtension;
            (extendee, number) in found && found[(extendee, number)] == value
  {
    var start := ix.(byName := ix.byName[file.name := value]);
    FileItemsAreDeclared(file, ExtensionItem("." + extendee, number));
    var k :| 0 <= k < |FileItems(file)| && FileItems(file)[k] == ExtensionItem("." + extendee, number);
    AcceptedItemsArePresent(start, FileItems(file), value, k);
    assert ("." + extendee)[1..] == extendee;
  }

  /** Nothing else is added: a new key is a qualified name of the file. */
  lemma {:induction false} NewEntriesAreItems<Value>(ix: Index<Value>, items: seq<Item>, value: Value, x: Entry<Value>)
    requires HasEntry(AddItems(ix, items, value).1.bySymbol, x)
    ensures HasEntry(ix.bySymbol, x) || (x.value == value && Has(items, SymbolItem(x.key)))
    decreases |items|
  {
    if items != [] {
      var (ok, ix1) := AddItem(ix, items[0], value);
      assert items == [items[0]] + items[1..];
      HasCons(items[0], items[1..], SymbolItem(x.key));
      if ok {
        NewEntriesAreItems(ix1, items[1..], value, x);
      }
      if items[0].SymbolItem? && ok {
        InsertedEntries(ix.bySymbol, Entry(items[0].name, value), x);
      }
    }
  }

  lemma NewSymbolsAreDeclared<Value>(ix: Index<Value>, file: FileProto, value: Value, x: Entry<Value>)
    requires HasEntry(AddFileSpec(ix, file, value).1.bySymbol, x) && !HasEntry(ix.bySymbol, x)
    ensures x.value == value && exists s :: Declares(file, s) && x.key == Qualified(file, s)
  {
    NewEntriesAreItems(ix.(byName := ix.byName[file.name := value]), FileItems(file), value, x);
    FileItemsAreDeclared(file, SymbolItem(x.key));
  }

  /** Whatever is reachable by symbol or extension is reachable by its own file name. */
  ghost predicate Consistent(ix: Index<FileProto>) {
    && (forall x :: HasEntry(ix.bySymbol, x) ==> x.value.name in ix.byName && ix.byName[x.value.name] == x.value)
    && (forall k :: k in ix.byExtension ==>
          ix.byExtension[k].name in ix.byName && ix.byName[ix.byExtension[k].name] == ix.byExtension[k])
  }

  /** SimpleDescriptorDatabase keeps this under every AddFile, also one that fails part way. */
  lemma AddFileKeepsConsistent(ix: Index<FileProto>, file: FileProto)
    requires Consistent(ix)
    ensures Consistent(AddFileSpec(ix, file, file).1)
    ensures !AddFileSpec(ix, file, file).0 && file.name in ix.byName ==> AddFileSpec(ix, file, file).1 == ix
  {
    if file.name !in ix.byName {
      AddItemsOnlyAdds(ix.(byName := ix.byName[file.name := file]), FileItems(file), file);
    }
  }
}
