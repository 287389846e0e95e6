/** The few functions of Go's `strings` package the analyzer relies on, restricted to
    ASCII: `TrimSpace`, `ToLower`, `EqualFold`, `HasPrefix`, `Index`, `Contains` and
    `Split` with a one-character separator. Raw source bytes are modelled one char per byte. */
module Strings {

  /** The ASCII characters `unicode.IsSpace` accepts. */
  predicate IsSpace(c: char) {
    c == ' ' || c == '\t' || c == '\n' || c == '\r' || c == '\U{000B}' || c == '\U{000C}'
  }

  predicate AllSpace(s: string) {
    forall k :: 0 <= k < |s| ==> IsSpace(s[k])
  }

  function TrimLeft(s: string): (r: string)
    ensures |r| <= |s|
  {
    if s != [] && IsSpace(s[0]) then TrimLeft(s[1..]) else s
  }

  /** `TrimLeft` keeps a suffix of `s` that does not start with whitespace, and only
      whitespace is dropped. */
  lemma {:induction false} TrimLeftSpec(s: string)
    ensures TrimLeft(s) == s[|s| - |TrimLeft(s)|..]
    ensures TrimLeft(s) != [] ==> !IsSpace(TrimLeft(s)[0])
    ensures AllSpace(s[..|s| - |TrimLeft(s)|])
  {
    if s != [] && IsSpace(s[0]) {
      var t := s[1..];
      var r := TrimLeft(t);
      TrimLeftSpec(t);
      assert TrimLeft(s) == r;
      assert t[|t| - |r|..] == s[|s| - |r|..];
      var dropped := s[..|s| - |r|];
      assert dropped == [s[0]] + t[..|t| - |r|];
      forall k | 0 <= k < |dropped|
        ensures IsSpace(dropped[k])
      {
        if k > 0 {
          assert dropped[k] == t[..|t| - |r|][k - 1];
        }
      }
    }
  }

  function TrimRight(s: string): (r: string)
    ensures |r| <= |s|
  {
    if s != [] && IsSpace(s[|s| - 1]) then TrimRight(s[..|s| - 1]) else s
  }

  /** `TrimRight` keeps a prefix of `s` that does not end with whitespace, and only
      whitespace is dropped. */
  lemma {:induction false} TrimRightSpec(s: string)
    ensures TrimRight(s) == s[..|TrimRight(s)|]
    ensures TrimRight(s) != [] ==> !IsSpace(TrimRight(s)[|TrimRight(s)| - 1])
    ensures AllSpace(s[|TrimRight(s)|..])
  {
    if s != [] && IsSpace(s[|s| - 1]) {
      var r := TrimRight(s[..|s| - 1]);
      TrimRightSpec(s[..|s| - 1]);
      assert s[..|s| - 1][|r|..] + [s[|s| - 1]] == s[|r|..];
    }
  }

  /** Go's strings.TrimSpace: drops leading and trailing whitespace. */
  function TrimSpace(s: string): (r: string)
    ensures |r| <= |s|
  {
    TrimRight(TrimLeft(s))
  }

  /** The trimmed text neither starts nor ends with whitespace, and it is empty
      exactly when `s` is all whitespace. */
  lemma TrimSpaceSpec(s: string)
    ensures TrimSpace(s) != [] ==> !IsSpace(TrimSpace(s)[0]) && !IsSpace(TrimSpace(s)[|TrimSpace(s)| - 1])
    ensures TrimSpace(s) == [] <==> AllSpace(s)
  {
    var l := TrimLeft(s);
    var r := TrimRight(l);
    TrimLeftSpec(s);
    TrimRightSpec(l);
    assert r == [] ==> s == s[..|s| - |l|] + l[|r|..];
  }

  lemma TrimSpaceOfTrimmed(s: string)
    requires s == [] || (!IsSpace(s[0]) && !IsSpace(s[|s| - 1]))
    ensures TrimSpace(s) == s
  {
  }

  /** One blank on each side of an unpadded word is trimmed away. */
  lemma TrimSpaceOfPadded(w: string)
    requires w != [] && !IsSpace(w[0]) && !IsSpace(w[|w| - 1])
    ensures TrimSpace([' '] + w + [' ']) == w
  {
    var s := [' '] + w + [' '];
    assert s[1..] == w + [' '];
    assert TrimLeft(s) == w + [' '];
    assert (w + [' '])[..|w|] == w;
    assert TrimRight(w + [' ']) == TrimRight(w);
    assert TrimRight(w) == w;
  }

  function LowerChar(c: char): char {
    if IsUpper(c) then (c as int + 32) as char else c
  }

  /** Go's strings.ToLower on ASCII text. */
  function ToLower(s: string): (r: string)
    ensures |r| == |s|
    ensures forall k :: 0 <= k < |s| ==> r[k] == LowerChar(s[k])
  {
    if s == [] then [] else [LowerChar(s[0])] + ToLower(s[1..])
  }

  predicate IsUpper(c: char) {
    'A' <= c <= 'Z'
  }

  /** Text without upper-case letters is its own lower-case form. */
  lemma ToLowerOfLower(s: string)
    requires forall k :: 0 <= k < |s| ==> !IsUpper(s[k])
    ensures ToLower(s) == s
  {
  }

  /** Lower-casing twice is lower-casing once. */
  lemma ToLowerIdempotent(s: string)
    ensures ToLower(ToLower(s)) == ToLower(s)
  {
    var l := ToLower(s);
    assert forall k :: 0 <= k < |l| ==> !IsUpper(l[k]);
    ToLowerOfLower(l);
  }

  /** Lower-casing keeps whitespace where it is, so it commutes with trimming. */
  lemma {:induction false} TrimLeftLower(s: string)
    ensures TrimLeft(ToLower(s)) == ToLower(TrimLeft(s))
  {
    if s != [] && IsSpace(s[0]) {
      assert ToLower(s)[1..] == ToLower(s[1..]);
      TrimLeftLower(s[1..]);
    }
  }

  lemma {:induction false} TrimRightLower(s: string)
    ensures TrimRight(ToLower(s)) == ToLower(TrimRight(s))
  {
    if s != [] && IsSpace(s[|s| - 1]) {
      assert ToLower(s)[..|s| - 1] == ToLower(s[..|s| - 1]);
      TrimRightLower(s[..|s| - 1]);
    }
  }

  lemma TrimSpaceLower(s: string)
    ensures TrimSpace(ToLower(s)) == ToLower(TrimSpace(s))
  {
    TrimLeftLower(s);
    TrimRightLower(TrimLeft(s));
  }

  /** Go's strings.EqualFold on ASCII text. */
  predicate EqualFold(a: string, b: string) {
    ToLower(a) == ToLower(b)
  }

  /** Comparing trimmed text to a lower-case word ignoring case is comparing the
      trimmed lower-cased text to it. */
  lemma EqualFoldTrimmed(s: string, w: string)
    requires ToLower(w) == w
    ensures EqualFold(TrimSpace(s), w) <==> TrimSpace(ToLower(s)) == w
  {
    TrimSpaceLower(s);
  }

  /** Strings that differ in length are never equal under case folding. */
  lemma EqualFoldSameLength(a: string, b: string)
    requires |a| != |b|
    ensures !EqualFold(a, b)
  {
    assert |ToLower(a)| == |a| && |ToLower(b)| == |b|;
  }

  predicate HasPrefix(s: string, p: string) {
    |p| <= |s| && s[..|p|] == p
  }

  predicate OccursAt(s: string, sub: string, i: int) {
    0 <= i && i + |sub| <= |s| && s[i..i + |sub|] == sub
  }

  /** Go's strings.Index: the first position at which `sub` occurs in `s`, or -1. */
  function Index(s: string, sub: string): (r: int)
    ensures -1 <= r && (r >= 0 ==> r + |sub| <= |s|)
  {
    if |s| < |sub| then -1
    else if HasPrefix(s, sub) then 0
    else
      var r := Index(s[1..], sub);
      if r == -1 then -1 else r + 1
  }

  /** `Index` finds an occurrence, and no earlier one exists. */
  lemma {:induction false} IndexSpec(s: string, sub: string)
    ensures Index(s, sub) >= 0 ==> OccursAt(s, sub, Index(s, sub))
    ensures forall j :: 0 <= j && (Index(s, sub) == -1 || j < Index(s, sub)) ==> !OccursAt(s, sub, j)
  {
    if |s| >= |sub| && !HasPrefix(s, sub) {
      IndexSpec(s[1..], sub);
      assert forall j :: 1 <= j ==> (OccursAt(s, sub, j) <==> OccursAt(s[1..], sub, j - 1));
    }
  }

  /** Text that starts with `sub` has it at position zero. */
  lemma IndexOfPrefix(sub: string, t: string)
    ensures Index(sub + t, sub) == 0
  {
    assert (sub + t)[..|sub|] == sub;
  }

  /** A leading character that cannot start `sub` only shifts where `sub` is found. */
  lemma IndexPastChar(c: char, s: string, sub: string)
    requires sub != [] && c != sub[0]
    ensures Index([c] + s, sub) == if Index(s, sub) == -1 then -1 else Index(s, sub) + 1
  {
    assert ([c] + s)[1..] == s;
    if |sub| <= |[c] + s| {
      assert ([c] + s)[..|sub|][0] == c;
    }
  }

  predicate Contains(s: string, sub: string) {
    Index(s, sub) >= 0
  }

  lemma ContainsIff(s: string, sub: string)
    ensures Contains(s, sub) <==> exists j :: OccursAt(s, sub, j)
  {
    IndexSpec(s, sub);
  }

  /** A one-character needle occurs exactly when that character does. */
  lemma {:induction false} ContainsChar(s: string, c: char)
    ensures Contains(s, [c]) <==> c in s
  {
    ContainsIff(s, [c]);
    if c in s {
      var j :| 0 <= j < |s| && s[j] == c;
      assert OccursAt(s, [c], j);
    } else {
      forall j | 0 <= j ensures !OccursAt(s, [c], j) {
        if j + 1 <= |s| { assert s[j..j + 1][0] == s[j]; }
      }
    }
  }

  /** Go's strings.Split with a one-character separator: never empty, and the pieces
      joined back with the separator give the input. */
  function Split(s: string, c: char): (r: seq<string>)
    ensures |r| >= 1
    ensures forall k :: 0 <= k < |r| ==> c !in r[k]
  {
    if s == [] then [[]]
    else
      var rest := Split(s[1..], c);
      if s[0] == c then [[]] + rest else [[s[0]] + rest[0]] + rest[1..]
  }

  function Join(ps: seq<string>, c: char): string
    requires |ps| >= 1
  {
    if |ps| == 1 then ps[0] else ps[0] + [c] + Join(ps[1..], c)
  }

  lemma {:induction false} JoinSplit(s: string, c: char)
    ensures Join(Split(s, c), c) == s
  {
    if s != [] {
      JoinSplit(s[1..], c);
      var rest := Split(s[1..], c);
      if s[0] != c && |rest| > 1 {
        assert Join(rest, c) == rest[0] + [c] + Join(rest[1..], c);
      }
    }
  }

  lemma {:induction false} SplitJoin(ps: seq<string>, c: char)
    requires |ps| >= 1
    requires forall k :: 0 <= k < |ps| ==> c !in ps[k]
    ensures Split(Join(ps, c), c) == ps
  {
    if |ps| == 1 {
      SplitWithout(ps[0], c);
    } else {
      SplitJoin(ps[1..], c);
      SplitAfter(ps[0], Join(ps[1..], c), c);
    }
  }

  lemma {:induction false} SplitWithout(s: string, c: char)
    requires c !in s
    ensures Split(s, c) == [s]
  {
    if s != [] {
      SplitWithout(s[1..], c);
      assert s == [s[0]] + s[1..];
    }
  }

  /** Splitting `p + [c] + t` where `p` has no separator: `p` comes first. */
  lemma {:induction false} SplitAfter(p: string, t: string, c: char)
    requires c !in p
    ensures Split(p + [c] + t, c) == [p] + Split(t, c)
  {
    if p != [] {
      SplitAfter(p[1..], t, c);
      assert (p + [c] + t)[0] == p[0];
      assert (p + [c] + t)[1..] == p[1..] + [c] + t;
      assert [p[0]] + p[1..] == p;
    } else {
      assert (p + [c] + t)[1..] == t;
    }
  }
}
