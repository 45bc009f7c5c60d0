/** Name resolution of DescriptorBuilder: the loop that chops components off a scope string, against
    a definition over the list of dot-separated components. */
module SymbolLookup {
  import SymbolNames

  datatype SymbolType = NULL_SYMBOL | MESSAGE | FIELD | ONEOF | ENUM | ENUM_VALUE | SERVICE | METHOD | PACKAGE

  /** A symbol found in the tables; the full name tells descriptors apart. */
  datatype Symbol = Symbol(kind: SymbolType, name: string) {
    predicate IsNull() { kind == NULL_SYMBOL }
    predicate IsType() { kind == MESSAGE || kind == ENUM }
    predicate IsAggregate() { kind == MESSAGE || kind == PACKAGE || kind == ENUM || kind == SERVICE }
  }

  datatype ResolveMode = LOOKUP_ALL | LOOKUP_TYPES

  // ----- Strings and their components -----

  /** The position of the last dot, -1 without one. */
  function LastDot(s: string): (r: int)
    ensures -1 <= r < |s|
    ensures r >= 0 ==> s[r] == '.'
    ensures forall i :: r < i < |s| ==> s[i] != '.'
  {
    if s == "" then -1 else if s[|s| - 1] == '.' then |s| - 1 else LastDot(s[..|s| - 1])
  }

  function FirstDot(s: string): (r: int)
    ensures -1 <= r < |s|
    ensures r >= 0 ==> s[r] == '.' && forall i :: 0 <= i < r ==> s[i] != '.'
    ensures r < 0 ==> forall i :: 0 <= i < |s| ==> s[i] != '.'
  {
    if s == "" then -1
    else if s[0] == '.' then 0
    else if FirstDot(s[1..]) < 0 then -1 else FirstDot(s[1..]) + 1
  }

  ghost predicate DotFree(s: string) {
    forall i :: 0 <= i < |s| ==> s[i] != '.'
  }

  function Components(s: string): (c: seq<string>)
    ensures c != []
    decreases |s|
  {
    if LastDot(s) < 0 then [s] else Components(s[..LastDot(s)]) + [s[LastDot(s) + 1..]]
  }

  function Join(c: seq<string>): string
    requires c != []
  {
    if |c| == 1 then c[0] else Join(c[..|c| - 1]) + "." + c[|c| - 1]
  }

  lemma SplitAtDot(s: string, d: nat)
    requires d < |s| && s[d] == '.'
    ensures s[..d] + "." + s[d + 1..] == s
  {
  }

  lemma {:induction false} ComponentsAreDotFree(s: string)
    ensures forall i :: 0 <= i < |Components(s)| ==> DotFree(Components(s)[i])
    decreases |s|
  {
    if LastDot(s) >= 0 {
      ComponentsAreDotFree(s[..LastDot(s)]);
    }
  }

  lemma {:induction false} ComponentsJoinBack(s: string)
    ensures Join(Components(s)) == s
    decreases |s|
  {
    var c, d := Components(s), LastDot(s);
    if d >= 0 {
      ComponentsJoinBack(s[..d]);
      assert c[..|c| - 1] == Components(s[..d]) && c[|c| - 1] == s[d + 1..];
      SplitAtDot(s, d);
    }
  }

  lemma LastDotOfJoin(c: seq<string>)
    requires c != [] && forall i :: 0 <= i < |c| ==> DotFree(c[i])
    ensures if |c| == 1 then LastDot(Join(c)) == -1
            else LastDot(Join(c)) == |Join(c[..|c| - 1])| && Join(c)[..LastDot(Join(c))] == Join(c[..|c| - 1])
  {
    var s := Join(c);
    if |c| > 1 {
      var p := Join(c[..|c| - 1]);
      assert s[|p|] == '.';
      forall i | |p| < i < |s|
        ensures s[i] != '.'
      {
        assert s[i] == c[|c| - 1][i - |p| - 1];
      }
      assert s[..|p|] == p;
    }
  }

  /** Splitting undoes joining: the components of a joined list are that list. */
  lemma {:induction false} JoinSplitsBack(c: seq<string>)
    requires c != [] && forall i :: 0 <= i < |c| ==> DotFree(c[i])
    ensures Components(Join(c)) == c
    decreases |c|
  {
    LastDotOfJoin(c);
    if |c| > 1 {
      JoinSplitsBack(c[..|c| - 1]);
      assert c == c[..|c| - 1] + [c[|c| - 1]];
    }
  }

  lemma LastDotOfConcat(a: string, b: string)
    ensures LastDot(a + "." + b) == if LastDot(b) < 0 then |a| else |a| + 1 + LastDot(b)
  {
    var s := a + "." + b;
    assert s[|a|] == '.';
    assert forall i :: 0 <= i < |b| ==> s[|a| + 1 + i] == b[i];
  }

  lemma SlicesOfConcat(a: string, b: string, d: nat, s: string, cut: nat)
    requires d < |b| && s == a + "." + b && cut == |a| + 1 + d
    ensures cut < |s| && s[..cut] == a + "." + b[..d] && s[cut + 1..] == b[d + 1..]
  {
  }

  lemma LastComponent(s: string, d: nat)
    requires LastDot(s) == d
    ensures Components(s) == Components(s[..d]) + [s[d + 1..]]
  {
  }

  lemma ComponentsOfDotFree(a: string, b: string, s: string)
    requires LastDot(b) < 0 && s == a + "." + b
    ensures Components(s) == Components(a) + Components(b)
  {
    LastDotOfConcat(a, b);
    LastComponent(s, |a|);
    assert s[..|a|] == a && s[|a| + 1..] == b;
  }

  lemma Regroup(all: seq<string>, front: seq<string>, a: seq<string>, b: seq<string>, c: seq<string>, last: string)
    requires all == front + [last] && front == a + b && c == b + [last]
    ensures all == a + c
  {
  }

  lemma {:induction false} ComponentsOfConcat(a: string, b: string, s: string)
    requires s == a + "." + b
    ensures Components(s) == Components(a) + Components(b)
    decreases |b|
  {
    var d := LastDot(b);
    if d < 0 {
      ComponentsOfDotFree(a, b, s);
    } else {
      var cut := |a| + 1 + d;
      var front := s[..cut];
      LastDotOfConcat(a, b);
      SlicesOfConcat(a, b, d, s, cut);
      ComponentsOfConcat(a, b[..d], front);
      LastComponent(s, cut);
      LastComponent(b, d);
      Regroup(Components(s), Components(front), Components(a), Components(b[..d]), Components(b), b[d + 1..]);
    }
  }

  lemma {:induction false} JoinOfConcat(a: seq<string>, b: seq<string>)
    requires a != [] && b != []
    ensures Join(a + b) == Join(a) + "." + Join(b)
    decreases |b|
  {
    var all := a + b;
    assert all[..|all| - 1] == a + b[..|b| - 1] && all[|all| - 1] == b[|b| - 1];
    if |b| == 1 {
      assert a + b[..0] == a;
    } else {
      JoinOfConcat(a, b[..|b| - 1]);
      var p, last := Join(b[..|b| - 1]), b[|b| - 1];
      assert (Join(a) + "." + p) + "." + last == Join(a) + "." + (p + "." + last);
    }
  }

  lemma DotMakesSubSymbol(parent: string, rest: string)
    ensures SymbolNames.IsSubSymbol(parent, parent + "." + rest)
  {
    var child := parent + "." + rest;
    assert child[..|parent|] == parent && child[|parent|] == '.';
  }

  lemma SubSymbolIsDotted(parent: string, child: string)
    requires SymbolNames.IsSubSymbol(parent, child) && parent != child
    ensures child == parent + "." + child[|parent| + 1..]
  {
  }

  /** A sub-symbol has the components of its parent in front. */
  lemma SubSymbolIsLonger(parent: string, child: string)
    ensures SymbolNames.IsSubSymbol(parent, child) <==> Components(parent) <= Components(child)
  {
    var p, c := Components(parent), Components(child);
    if SymbolNames.IsSubSymbol(parent, child) && parent != child {
      SubSymbolIsDotted(parent, child);
      ComponentsOfConcat(parent, child[|parent| + 1..], child);
    }
    if p <= c {
      LongerIsSubSymbol(parent, child);
    }
  }

  lemma LongerIsSubSymbol(parent: string, child: string)
    requires Components(parent) <= Components(child)
    ensures SymbolNames.IsSubSymbol(parent, child)
  {
    var p, c := Components(parent), Components(child);
    ComponentsJoinBack(parent);
    ComponentsJoinBack(child);
    var rest := c[|p|..];
    assert c == p + rest;
    if rest == [] {
      assert c == p;
    } else {
      JoinOfConcat(p, rest);
      DotMakesSubSymbol(parent, Join(rest));
    }
  }

  // ----- Resolution over components -----

  function FirstPart(name: string): string {
    if FirstDot(name) < 0 then name else name[..FirstDot(name)]
  }

  lemma FirstDotOfPrefix(name: string, d: nat)
    requires d == LastDot(name)
    ensures FirstDot(name) == if FirstDot(name[..d]) >= 0 then FirstDot(name[..d]) else d
  {
    var f := FirstDot(name);
    assert f >= 0 && f <= d;
    assert forall i :: 0 <= i < d ==> name[..d][i] == name[i];
  }

  /** It is what stands before the first dot of the name. */
  lemma {:induction false} FirstPartIsFirst(name: string)
    ensures FirstPart(name) == Components(name)[0]
    ensures |FirstPart(name)| < |name| <==> |Components(name)| > 1
    decreases |name|
  {
    var d := LastDot(name);
    if d >= 0 {
      FirstDotOfPrefix(name, d);
      FirstPartIsFirst(name[..d]);
      assert Components(name)[0] == Components(name[..d])[0];
    }
  }

  /** The first component looked for inside the scope made of the first k components. */
  function Candidate(scope: seq<string>, k: nat, name: string): string
    requires 1 <= k <= |scope|
  {
    Join(scope[..k]) + "." + FirstPart(name)
  }

  /** Whether the search stops in that scope: for a compound name the first part must be something
      that can contain symbols, for a simple one it must be acceptable in the given mode. */
  predicate Stops(find: string -> Symbol, scope: seq<string>, k: nat, name: string, mode: ResolveMode)
    requires 1 <= k <= |scope|
  {
    var s := find(Candidate(scope, k, name));
    && !s.IsNull()
    && (if |FirstPart(name)| < |name| then s.IsAggregate() else mode == LOOKUP_TYPES ==> s.IsType())
  }

  datatype Lookup = Lookup(symbol: Symbol, undefinedName: string)

  lemma WholeName(scope: string, name: string)
    ensures scope + "." + FirstPart(name) + name[|FirstPart(name)|..] == scope + "." + name
  {
    assert FirstPart(name) + name[|FirstPart(name)|..] == name;
  }

  /** What is answered when the search stops in scope k. */
  function Within(find: string -> Symbol, scope: seq<string>, k: nat, name: string): Lookup
    requires 1 <= k <= |scope|
  {
    if |FirstPart(name)| < |name| then
      var full := Candidate(scope, k, name) + name[|FirstPart(name)|..];
      Lookup(find(full), if find(full).IsNull() then full else "")
    else Lookup(find(Candidate(scope, k, name)), "")
  }

  function Resolve(find: string -> Symbol, scope: seq<string>, k: nat, name: string, mode: ResolveMode): Lookup
    requires k <= |scope|
  {
    if k == 0 then Lookup(find(name), "")
    else if Stops(find, scope, k, name, mode) then Within(find, scope, k, name)
    else Resolve(find, scope, k - 1, name, mode)
  }

  /** What a name means in a scope; a leading dot says that the name is a full one. */
  function LookupIn(find: string -> Symbol, name: string, relativeTo: string, mode: ResolveMode): Lookup {
    if name != "" && name[0] == '.' then Lookup(find(name[1..]), "")
    else Resolve(find, Components(relativeTo), |Components(relativeTo)| - 1, name, mode)
  }

  lemma {:induction false} SameFindsSameResolve(find: string -> Symbol, find': string -> Symbol, scope: seq<string>, k: nat,
                                                name: string, mode: ResolveMode)
    requires k <= |scope| && forall n :: find(n) == find'(n)
    ensures Resolve(find, scope, k, name, mode) == Resolve(find', scope, k, name, mode)
  {
    if 0 < k {
      SameFindsSameResolve(find, find', scope, k - 1, name, mode);
    }
  }

  ghost predicate NoneStops(find: string -> Symbol, scope: seq<string>, j: nat, k: nat, name: string, mode: ResolveMode)
    requires k <= |scope|
  {
    forall i {:trigger Stops(find, scope, i, name, mode)} :: j < i <= k ==> !Stops(find, scope, i, name, mode)
  }

  lemma {:induction false} FirstStopDecides(find: string -> Symbol, scope: seq<string>, j: nat, k: nat, name: string, mode: ResolveMode)
    requires 1 <= j <= k <= |scope|
    requires Stops(find, scope, j, name, mode) && NoneStops(find, scope, j, k, name, mode)
    ensures Resolve(find, scope, k, name, mode) == Within(find, scope, j, name)
  {
    if j < k {
      assert !Stops(find, scope, k, name, mode);
      FirstStopDecides(find, scope, j, k - 1, name, mode);
    }
  }

  /** The scope made of the first k components has something for the name: for a name of several parts
      an aggregate that is called like its first part, for a simple name an acceptable symbol. */
  predicate Offers(find: string -> Symbol, scope: seq<string>, k: nat, name: string, mode: ResolveMode)
    requires 1 <= k <= |scope|
  {
    var s := find(Join(scope[..k]) + "." + Components(name)[0]);
    if |Components(name)| > 1 then s.kind in {MESSAGE, PACKAGE, ENUM, SERVICE}
    else s.kind != NULL_SYMBOL && (mode == LOOKUP_TYPES ==> s.kind in {MESSAGE, ENUM})
  }

  lemma StopsIfOffers(find: string -> Symbol, scope: seq<string>, k: nat, name: string, mode: ResolveMode)
    requires 1 <= k <= |scope|
    ensures Stops(find, scope, k, name, mode) <==> Offers(find, scope, k, name, mode)
  {
    FirstPartIsFirst(name);
    assert Candidate(scope, k, name) == Join(scope[..k]) + "." + Components(name)[0];
  }

  lemma WithinIsWhole(find: string -> Symbol, scope: seq<string>, k: nat, name: string)
    requires 1 <= k <= |scope|
    ensures var whole := Join(scope[..k]) + "." + name;
            Within(find, scope, k, name) == Lookup(find(whole), if |Components(name)| > 1 && find(whole).IsNull() then whole else "")
  {
    FirstPartIsFirst(name);
    WholeName(Join(scope[..k]), name);
    if |FirstPart(name)| == |name| {
      assert FirstPart(name) == name;
    }
  }

  ghost predicate NoneOffers(find: string -> Symbol, scope: seq<string>, j: nat, k: nat, name: string, mode: ResolveMode)
    requires k <= |scope|
  {
    forall i {:trigger Offers(find, scope, i, name, mode)} :: j < i <= k ==> !Offers(find, scope, i, name, mode)
  }

  lemma NoneStopsIfNoneOffers(find: string -> Symbol, scope: seq<string>, j: nat, k: nat, name: string, mode: ResolveMode)
    requires k <= |scope| && NoneOffers(find, scope, j, k, name, mode)
    ensures NoneStops(find, scope, j, k, name, mode)
  {
    forall i | j < i <= k
      ensures !Stops(find, scope, i, name, mode)
    {
      StopsIfOffers(find, scope, i, name, mode);
    }
  }

  /** The innermost scope that has something for the name decides, with the whole name inside it. */
  lemma InnermostDecides(find: string -> Symbol, scope: seq<string>, j: nat, k: nat, name: string, mode: ResolveMode)
    requires 1 <= j <= k <= |scope|
    requires Offers(find, scope, j, name, mode) && NoneOffers(find, scope, j, k, name, mode)
    ensures var whole := Join(scope[..j]) + "." + name;
            Resolve(find, scope, k, name, mode) == Lookup(find(whole), if |Components(name)| > 1 && find(whole).IsNull() then whole else "")
  {
    StopsIfOffers(find, scope, j, name, mode);
    WithinIsWhole(find, scope, j, name);
    NoneStopsIfNoneOffers(find, scope, j, k, name, mode);
    FirstStopDecides(find, scope, j, k, name, mode);
  }

  /** Without one the root does. */
  lemma {:induction false} RootDecides(find: string -> Symbol, scope: seq<string>, k: nat, name: string, mode: ResolveMode)
    requires k <= |scope| && NoneOffers(find, scope, 0, k, name, mode)
    ensures Resolve(find, scope, k, name, mode) == Lookup(find(name), "")
  {
    if 0 < k {
      assert !Offers(find, scope, k, name, mode);
      StopsIfOffers(find, scope, k, name, mode);
      RootDecides(find, scope, k - 1, name, mode);
    }
  }

  /** A compound name never skips past an aggregate that has its first part: either the whole name is
      found inside it or the lookup fails and says which name was tried. */
  lemma CompoundCommits(find: string -> Symbol, scope: seq<string>, k: nat, name: string, mode: ResolveMode)
    requires 1 <= k <= |scope| && |Components(name)| > 1
    requires find(Join(scope[..k]) + "." + Components(name)[0]).IsAggregate()
    ensures var r := Resolve(find, scope, k, name, mode);
            r.symbol == find(Join(scope[..k]) + "." + name)
            && (r.symbol.IsNull() ==> r.undefinedName == Join(scope[..k]) + "." + name)
  {
    InnermostDecides(find, scope, k, k, name, mode);
  }

  /** What a name means in a scope: a leading dot says that the name is a full one; otherwise the
      innermost of the scopes around relativeTo that has something for the name decides, and the root
      when none has. */
  lemma LookupMeans(find: string -> Symbol, name: string, relativeTo: string, mode: ResolveMode, j: nat)
    ensures name != "" && name[0] == '.' ==> LookupIn(find, name, relativeTo, mode) == Lookup(find(name[1..]), "")
    ensures var scope := Components(relativeTo);
            (name == "" || name[0] != '.') && j < |scope| && NoneOffers(find, scope, j, |scope| - 1, name, mode) ==>
              if j == 0 then LookupIn(find, name, relativeTo, mode) == Lookup(find(name), "")
              else Offers(find, scope, j, name, mode) ==>
                     var whole := Join(scope[..j]) + "." + name;
                     LookupIn(find, name, relativeTo, mode)
                     == Lookup(find(whole), if |Components(name)| > 1 && find(whole).IsNull() then whole else "")
  {
    var scope := Components(relativeTo);
    if j < |scope| && NoneOffers(find, scope, j, |scope| - 1, name, mode) {
      if j == 0 {
        RootDecides(find, scope, |scope| - 1, name, mode);
      } else if Offers(find, scope, j, name, mode) {
        InnermostDecides(find, scope, j, |scope| - 1, name, mode);
      }
    }
  }

  // ----- The loop over strings -----

  /** What one round answers for the chopped scope, or nothing when the loop goes on. */
  datatype Round = GoOn | Answer(lookup: Lookup)

  function TryScope(find: string -> Symbol, prefix: string, first: string, name: string, mode: ResolveMode): Round
    requires |first| <= |name|
  {
    var tried := prefix + "." + first;
    var s := find(tried);
    if s.IsNull() then GoOn
    else if |first| < |name| then
      if s.IsAggregate() then
        var full := tried + name[|first|..];
        Answer(Lookup(find(full), if find(full).IsNull() then full else ""))
      else GoOn
    else if mode == LOOKUP_TYPES && !s.IsType() then GoOn
    else Answer(Lookup(s, ""))
  }

  function ResolveString(find: string -> Symbol, scope: string, name: string, mode: ResolveMode): Lookup
    decreases |scope|
  {
    if LastDot(scope) < 0 then Lookup(find(name), "")
    else
      match TryScope(find, scope[..LastDot(scope)], FirstPart(name), name, mode)
      case Answer(l) => l
      case GoOn => ResolveString(find, scope[..LastDot(scope)], name, mode)
  }

  lemma RoundMeansStop(find: string -> Symbol, scope: seq<string>, k: nat, name: string, mode: ResolveMode)
    requires 1 <= k <= |scope|
    ensures TryScope(find, Join(scope[..k]), FirstPart(name), name, mode)
         == if Stops(find, scope, k, name, mode) then Answer(Within(find, scope, k, name)) else GoOn
  {
  }

  lemma OneRound(find: string -> Symbol, s: string, prefix: string, name: string, mode: ResolveMode)
    requires LastDot(s) >= 0 && s[..LastDot(s)] == prefix
    ensures ResolveString(find, s, name, mode)
         == match TryScope(find, prefix, FirstPart(name), name, mode)
            case Answer(l) => l
            case GoOn => ResolveString(find, prefix, name, mode)
  {
  }

  lemma JoinIsChopped(scope: seq<string>, k: nat)
    requires 1 <= k <= |scope| && forall i :: 0 <= i < |scope| ==> DotFree(scope[i])
    ensures var s := Join(scope[..k]);
            if k == 1 then LastDot(s) == -1 else LastDot(s) >= 0 && s[..LastDot(s)] == Join(scope[..k - 1])
  {
    LastDotOfJoin(scope[..k]);
    if k > 1 {
      assert scope[..k][..k - 1] == scope[..k - 1];
    }
  }

  /** Chopping strings is dropping components. */
  lemma {:induction false} StringsFollowComponents(find: string -> Symbol, scope: seq<string>, k: nat, s: string, name: string,
                                                   mode: ResolveMode)
    requires 1 <= k <= |scope| && s == Join(scope[..k]) && forall i :: 0 <= i < |scope| ==> DotFree(scope[i])
    ensures ResolveString(find, s, name, mode) == Resolve(find, scope, k - 1, name, mode)
    decreases k
  {
    JoinIsChopped(scope, k);
    if k > 1 {
      var prefix := s[..LastDot(s)];
      OneRound(find, s, prefix, name, mode);
      RoundMeansStop(find, scope, k - 1, name, mode);
      StringsFollowComponents(find, scope, k - 1, prefix, name, mode);
    }
  }

  lemma StringLookupIsResolve(find: string -> Symbol, relativeTo: string, name: string, mode: ResolveMode)
    ensures ResolveString(find, relativeTo, name, mode)
         == Resolve(find, Components(relativeTo), |Components(relativeTo)| - 1, name, mode)
  {
    var scope := Components(relativeTo);
    ComponentsJoinBack(relativeTo);
    ComponentsAreDotFree(relativeTo);
    assert scope[..|scope|] == scope;
    StringsFollowComponents(find, scope, |scope|, relativeTo, name, mode);
  }
}
