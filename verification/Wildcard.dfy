/** Comparison with wildcards: strings, unique objects, a wildcard, and alternatives, under a
    mutually recursive equality that tries the match in both directions. */
module Wildcard {

  /** `Unique` stands for every object that is only equal to itself; `id` is its identity. */
  datatype Rich = S(str: string) | Unique(id: nat) | Any(id: nat) | OneOf(items: seq<Rich>)

  function Size(a: Rich): nat {
    match a
    case OneOf(items) => 1 + SizeAll(items)
    case _ => 1
  }

  function SizeAll(items: seq<Rich>): nat {
    if items == [] then 0 else Size(items[0]) + SizeAll(items[1..])
  }

  /** The match of each class against another object. */
  predicate Match(a: Rich, b: Rich)
    decreases Size(a) + Size(b), 0, |if a.OneOf? then a.items else []|
  {
    match a
    case S(str) => b.S? && b.str == str
    case Unique(id) => b == a
    case Any(_) => true
    case OneOf(items) => MatchAny(items, b)
  }

  /** The loop over the alternatives. */
  predicate MatchAny(items: seq<Rich>, b: Rich)
    decreases SizeAll(items) + Size(b), 2, |items|
  {
    items != [] && (Equal(items[0], b) || MatchAny(items[1..], b))
  }

  predicate Equal(a: Rich, b: Rich)
    decreases Size(a) + Size(b), 1, 0
  {
    Match(a, b) || Match(b, a)
  }

  datatype Leaf = Text(str: string) | Object(id: nat)

  predicate HasAny(a: Rich) {
    match a
    case Any(_) => true
    case OneOf(items) => exists i :: 0 <= i < |items| && HasAny(items[i])
    case _ => false
  }

  predicate IsLeaf(a: Rich, l: Leaf) {
    match a
    case S(str) => l == Text(str)
    case Unique(id) => l == Object(id)
    case Any(_) => false
    case OneOf(items) => exists i :: 0 <= i < |items| && IsLeaf(items[i], l)
  }

  ghost predicate Overlap(a: Rich, b: Rich) {
    HasAny(a) || HasAny(b) || exists l :: IsLeaf(a, l) && IsLeaf(b, l)
  }

  lemma {:induction false} MatchAnyIsExists(items: seq<Rich>, b: Rich)
    ensures MatchAny(items, b) <==> exists i :: 0 <= i < |items| && Equal(items[i], b)
    decreases |items|
  {
    if items != [] {
      MatchAnyIsExists(items[1..], b);
      if MatchAny(items[1..], b) {
        var i :| 0 <= i < |items[1..]| && Equal(items[1..][i], b);
        assert Equal(items[i + 1], b);
      }
      if exists i :: 0 < i < |items| && Equal(items[i], b) {
        var i :| 0 < i < |items| && Equal(items[i], b);
        assert Equal(items[1..][i - 1], b);
      }
    }
  }

  lemma {:induction false} ItemIsSmaller(items: seq<Rich>, i: nat)
    requires i < |items|
    ensures Size(items[i]) <= SizeAll(items)
    decreases |items|
  {
    if i > 0 {
      ItemIsSmaller(items[1..], i - 1);
    }
  }

  /** A match is an overlap: no wildcard, no common leaf, no match. */
  lemma {:induction false} MatchIsOverlap(a: Rich, b: Rich)
    ensures Match(a, b) ==> Overlap(a, b)
    decreases Size(a) + Size(b), 0
  {
    match a {
      case S(str) => assert IsLeaf(a, Text(str));
      case Unique(id) => assert IsLeaf(a, Object(id));
      case Any(_) =>
      case OneOf(items) =>
        if Match(a, b) {
          MatchAnyIsExists(items, b);
          var i :| 0 <= i < |items| && Equal(items[i], b);
          ItemIsSmaller(items, i);
          EqualIffOverlap(items[i], b);
          ItemOverlaps(items, i, b);
        }
    }
  }

  lemma {:induction false} ItemOverlaps(items: seq<Rich>, i: nat, b: Rich)
    requires i < |items| && Overlap(items[i], b)
    ensures Overlap(OneOf(items), b)
  {
  }

  /** A wildcard anywhere among the alternatives matches everything. */
  lemma {:induction false} AnyMatches(a: Rich, b: Rich)
    requires HasAny(a)
    ensures Match(a, b)
    decreases Size(a)
  {
    match a {
      case Any(_) =>
      case OneOf(items) =>
        var i :| 0 <= i < |items| && HasAny(items[i]);
        ItemIsSmaller(items, i);
        AnyMatches(items[i], b);
        MatchAnyIsExists(items, b);
    }
  }

  /** An alternative that overlaps makes the whole match. */
  lemma {:induction false} AlternativeMatches(items: seq<Rich>, b: Rich, l: Leaf)
    requires IsLeaf(OneOf(items), l) && IsLeaf(b, l)
    ensures Match(OneOf(items), b)
    decreases Size(OneOf(items)) + Size(b), 0
  {
    var i :| 0 <= i < |items| && IsLeaf(items[i], l);
    ItemIsSmaller(items, i);
    EqualIffOverlap(items[i], b);
    MatchAnyIsExists(items, b);
  }

  /** The set semantics: two objects are equal if and only if one of them contains the wildcard
      or they have a leaf in common, however deeply alternatives are nested. */
  lemma {:induction false} EqualIffOverlap(a: Rich, b: Rich)
    ensures Equal(a, b) <==> Overlap(a, b)
    decreases Size(a) + Size(b), 1
  {
    MatchIsOverlap(a, b);
    MatchIsOverlap(b, a);
    if HasAny(a) {
      AnyMatches(a, b);
    } else if HasAny(b) {
      AnyMatches(b, a);
    } else if exists l :: IsLeaf(a, l) && IsLeaf(b, l) {
      var l :| IsLeaf(a, l) && IsLeaf(b, l);
      if a.OneOf? {
        AlternativeMatches(a.items, b, l);
      } else if b.OneOf? {
        AlternativeMatches(b.items, a, l);
      }
    }
  }

  /** Equality is symmetric; it is reflexive exactly for objects that have a leaf, so not for an
      empty list of alternatives. */
  lemma {:induction false} EqualIsSymmetric(a: Rich, b: Rich)
    ensures Equal(a, b) <==> Equal(b, a)
    ensures Equal(a, a) <==> HasAny(a) || exists l :: IsLeaf(a, l)
  {
    EqualIffOverlap(a, a);
    if exists l :: IsLeaf(a, l) {
      var l :| IsLeaf(a, l);
      assert IsLeaf(a, l) && IsLeaf(a, l);
    }
  }

  /** The object that a leaf stands for. */
  function Wrapped(l: Leaf): Rich {
    match l
    case Text(str) => S(str)
    case Object(id) => Unique(id)
  }

  lemma {:induction false} EqualToLeaf(l: Leaf, b: Rich)
    ensures Equal(Wrapped(l), b) <==> HasAny(b) || IsLeaf(b, l)
    ensures Equal(b, Wrapped(l)) <==> HasAny(b) || IsLeaf(b, l)
  {
    EqualIffOverlap(Wrapped(l), b);
    EqualIsSymmetric(Wrapped(l), b);
    assert forall m :: IsLeaf(Wrapped(l), m) <==> m == l;
  }

  ghost predicate TransitiveThrough(b: Rich) {
    forall a, c :: Equal(a, b) && Equal(b, c) ==> Equal(a, c)
  }

  /** No wildcard and at most one leaf, however often it is repeated. */
  ghost predicate Single(b: Rich) {
    !HasAny(b) && forall l, m :: IsLeaf(b, l) && IsLeaf(b, m) ==> l == m
  }

  lemma {:induction false} SingleJoins(a: Rich, b: Rich, c: Rich)
    requires Single(b) && Equal(a, b) && Equal(b, c)
    ensures Equal(a, c)
  {
    EqualIffOverlap(a, b);
    EqualIffOverlap(b, c);
    EqualIffOverlap(a, c);
  }

  /** Two different leaves that are both equal to `b`. */
  lemma {:induction false} LeavesApart(b: Rich) returns (l: Leaf, m: Leaf)
    requires !Single(b)
    ensures l != m && Equal(Wrapped(l), b) && Equal(b, Wrapped(m)) && !Equal(Wrapped(l), Wrapped(m))
  {
    if HasAny(b) {
      l, m := Object(0), Object(1);
    } else {
      l, m :| IsLeaf(b, l) && IsLeaf(b, m) && l != m;
    }
    EqualToLeaf(l, b);
    EqualToLeaf(m, b);
    EqualToLeaf(l, Wrapped(m));
  }

  /** Equality through an object is transitive if and only if that object stands for one thing at
      most: it has no wildcard and no two different leaves. */
  lemma {:induction false} TransitiveIffSingle(b: Rich)
    ensures TransitiveThrough(b) <==> Single(b)
  {
    if Single(b) {
      forall a, c | Equal(a, b) && Equal(b, c)
        ensures Equal(a, c)
      {
        SingleJoins(a, b, c);
      }
    } else {
      var l, m := LeavesApart(b);
    }
  }

  /** So it is not transitive: the wildcard equals two strings that differ. */
  lemma {:induction false} EqualIsNotTransitive()
    ensures Equal(S("a"), Any(0)) && Equal(Any(0), S("b")) && !Equal(S("a"), S("b"))
  {
    assert "a"[0] != "b"[0];
  }

  /** And no alternatives at all are not equal to themselves. */
  lemma {:induction false} NothingIsNotItself()
    ensures !Equal(OneOf([]), OneOf([]))
  {
    EqualIsSymmetric(OneOf([]), OneOf([]));
  }

  // ----- Queries -----

  datatype Query = Query(os: Rich, osversion: Rich, release: Rich, renderer: Rich, proto: Rich, format: Rich,
                         supported: Rich)

  /** The match of queries asks the operating system in one direction only, and does not look at
      whether the format is supported. */
  predicate QueryMatch(q: Query, r: Query) {
    && Match(q.os, r.os)
    && Equal(q.osversion, r.osversion)
    && Equal(q.release, r.release)
    && Equal(q.renderer, r.renderer)
    && Equal(q.proto, r.proto)
    && Equal(q.format, r.format)
  }

  predicate QueryEqual(q: Query, r: Query) {
    QueryMatch(q, r) || QueryMatch(r, q)
  }

  /** Queries are equal if and only if all six fields overlap, the one-sided match included. */
  lemma {:induction false} QueryEqualIsFieldwise(q: Query, r: Query)
    ensures QueryEqual(q, r)
       <==> && Overlap(q.os, r.os) && Overlap(q.osversion, r.osversion) && Overlap(q.release, r.release)
            && Overlap(q.renderer, r.renderer) && Overlap(q.proto, r.proto) && Overlap(q.format, r.format)
  {
    EqualIffOverlap(q.os, r.os);
    EqualIffOverlap(q.osversion, r.osversion);
    EqualIffOverlap(q.release, r.release);
    EqualIffOverlap(q.renderer, r.renderer);
    EqualIffOverlap(q.proto, r.proto);
    EqualIffOverlap(q.format, r.format);
    EqualIsSymmetric(q.osversion, r.osversion);
    EqualIsSymmetric(q.release, r.release);
    EqualIsSymmetric(q.renderer, r.renderer);
    EqualIsSymmetric(q.proto, r.proto);
    EqualIsSymmetric(q.format, r.format);
  }
}
