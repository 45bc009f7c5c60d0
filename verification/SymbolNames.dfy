/** Symbol names as std::map orders them, and the dot-prefix relation of the descriptor index. */
module SymbolNames {
  /** Strict lexicographic order on character codes. */
  predicate Less(a: string, b: string) {
    if b == "" then false
    else if a == "" then true
    else a[0] < b[0] || (a[0] == b[0] && Less(a[1..], b[1..]))
  }

  /** The two are equal, or parent followed by a dot starts child. */
  predicate IsSubSymbol(parent: string, child: string) {
    parent == child || (|parent| < |child| && parent <= child && child[|parent|] == '.')
  }

  predicate ValidChar(c: char) {
    c == '.' || c == '_' || '0' <= c <= '9' || 'A' <= c <= 'Z' || 'a' <= c <= 'z'
  }

  predicate ValidName(name: string) {
    forall i :: 0 <= i < |name| ==> ValidChar(name[i])
  }

  lemma {:induction false} LessIsStrict(a: string, b: string)
    ensures !(Less(a, b) && Less(b, a))
    ensures !Less(a, a)
    ensures a == b || Less(a, b) || Less(b, a)
    decreases |a|
  {
    if a != "" {
      LessIsStrict(a[1..], a[1..]);
      if b != "" {
        LessIsStrict(a[1..], b[1..]);
        assert a[0] == b[0] && a[1..] == b[1..] ==> a == [a[0]] + a[1..] == b;
      }
    }
  }

  lemma {:induction false} LessIsTransitive(a: string, b: string, c: string)
    requires Less(a, b) && Less(b, c)
    ensures Less(a, c)
  {
    if a != "" && a[0] == b[0] == c[0] {
      LessIsTransitive(a[1..], b[1..], c[1..]);
    }
  }

  lemma {:induction false} SubSymbolNotLess(parent: string, child: string)
    requires IsSubSymbol(parent, child)
    ensures !Less(child, parent)
  {
    if parent == child {
      LessIsStrict(parent, child);
    } else if parent != "" {
      SubSymbolNotLess(parent[1..], child[1..]);
    }
  }

  /** The step the index relies on: a valid name sorted between a symbol and one of its sub-symbols
      is a sub-symbol itself, because '.' sorts before every other valid character. */
  lemma {:induction false} BetweenIsSubSymbol(parent: string, between: string, child: string)
    requires IsSubSymbol(parent, child) && ValidName(between)
    requires !Less(between, parent) && !Less(child, between)
    ensures IsSubSymbol(parent, between)
  {
    if parent == child {
      LessIsStrict(parent, between);
    } else if parent != "" && between != "" {
      BetweenIsSubSymbol(parent[1..], between[1..], child[1..]);
      assert parent[1..] == between[1..] ==> parent == [parent[0]] + parent[1..] == between;
    }
  }
}
