/** Python's `os.path.split` and `os.path.join` on POSIX, and peeling trailing components. */
module OsPath {
  const Sep: char := '/'

  /** The index of the last separator in `p`, or -1. */
  function LastSep(p: string): (r: int)
    ensures -1 <= r < |p|
  {
    if p == [] then -1 else if p[|p| - 1] == Sep then |p| - 1 else LastSep(p[..|p| - 1])
  }

  /** The separator found is the last one. */
  lemma {:induction false} LastSepIsLast(p: string)
    ensures LastSep(p) >= 0 ==> p[LastSep(p)] == Sep
    ensures forall j :: LastSep(p) < j < |p| ==> p[j] != Sep
  {
    if p != [] && p[|p| - 1] != Sep {
      LastSepIsLast(p[..|p| - 1]);
    }
  }

  predicate AllSeps(h: string)
  {
    forall i :: 0 <= i < |h| ==> h[i] == Sep
  }

  /** `h.rstrip('/')`. */
  function TrimSeps(h: string): (r: string)
    ensures |r| <= |h|
  {
    if h != [] && h[|h| - 1] == Sep then TrimSeps(h[..|h| - 1]) else h
  }

  /** `rstrip('/')` removes exactly the separators at the end. */
  lemma {:induction false} TrimSepsSpec(h: string)
    ensures var r := TrimSeps(h); r == h[..|r|] && AllSeps(h[|r|..])
    ensures var r := TrimSeps(h); r == [] || r[|r| - 1] != Sep
  {
    if h != [] && h[|h| - 1] == Sep {
      TrimSepsSpec(h[..|h| - 1]);
      var r := TrimSeps(h);
      assert h[|r|..] == h[..|h| - 1][|r|..] + [Sep];
    }
  }

  /**
   * `os.path.split(p)`: the tail is everything after the last separator; the head is
   * everything up to it, with trailing separators removed unless the head is nothing
   * but separators.
   */
  function Split(p: string): (halves: (string, string))
  {
    var i := LastSep(p) + 1;
    var head, tail := p[..i], p[i..];
    var trimmed := TrimSeps(head);
    if trimmed != [] then (trimmed, tail) else (head, tail)
  }

  /** The tail is what follows the last separator, so it holds none. */
  lemma SplitTail(p: string)
    ensures Split(p).1 == p[LastSep(p) + 1..] && Sep !in Split(p).1
  {
    LastSepIsLast(p);
  }

  /**
   * `rstrip('/')` leaves nothing exactly when the head is nothing but separators, so the
   * head is trimmed exactly when it is non-empty and not all separators.
   */
  lemma SplitHead(p: string)
    ensures var head := p[..LastSep(p) + 1];
      Split(p).0 == if head != [] && !AllSeps(head) then TrimSeps(head) else head
  {
    var head := p[..LastSep(p) + 1];
    TrimSepsSpec(head);
    var r := TrimSeps(head);
    if r == [] {
      assert head[|r|..] == head;
    } else {
      assert head[|r| - 1] == r[|r| - 1];
    }
  }

  /** `os.path.join(a, b)`: an absolute `b` replaces `a`; a separator is inserted only when needed. */
  function Join(a: string, b: string): (joined: string)
  {
    if b != [] && b[0] == Sep then b
    else if a == [] || a[|a| - 1] == Sep then a + b
    else a + [Sep] + b
  }

  /** `os.path.join(a, *parts)`, folding from the left. */
  function JoinAll(a: string, parts: seq<string>): (joined: string)
  {
    if parts == [] then a else Join(JoinAll(a, parts[..|parts| - 1]), parts[|parts| - 1])
  }

  /** A component as produced by splitting: non-empty and free of separators. */
  predicate IsSegment(s: string)
  {
    s != [] && Sep !in s
  }

  predicate AllSegments(parts: seq<string>)
  {
    forall i :: 0 <= i < |parts| ==> IsSegment(parts[i])
  }

  /** The path with its last `n` components peeled off by `n` calls of `os.path.split`, each on the previous head. */
  function Ancestor(p: string, n: nat): (head: string)
    decreases n
  {
    if n == 0 then p else Ancestor(Split(p).0, n - 1)
  }

  /** The `n`-th component counted from the end (0 is the last): the tail of the `n + 1`-th split. */
  function Component(p: string, n: nat): (name: string)
    decreases n
  {
    if n == 0 then Split(p).1 else Component(Split(p).0, n - 1)
  }

  /** One more split of the `n`-th ancestor gives the next ancestor as its head and the `n`-th component as its tail. */
  lemma {:induction false} PeelStep(p: string, n: nat)
    ensures Split(Ancestor(p, n)) == (Ancestor(p, n + 1), Component(p, n))
    decreases n
  {
    if n > 0 {
      PeelStep(Split(p).0, n - 1);
    }
  }

  /** Splitting after a join returns the joined segment as the tail. */
  lemma SplitJoinTail(a: string, b: string)
    requires IsSegment(b)
    ensures Split(Join(a, b)).1 == b
    ensures Join(a, b) != [] && Join(a, b)[|Join(a, b)| - 1] != Sep
  {
    var y := if a == [] || a[|a| - 1] == Sep then a else a + [Sep];
    var p := Join(a, b);
    assert p == y + b;
    assert p[|p| - 1] == b[|b| - 1];
    assert LastSep(p) == |y| - 1 by {
      LastSepIsLast(p);
      if y != [] {
        assert p[|y| - 1] == Sep;
      }
    }
  }

  /** Splitting after a join returns both operands when the head needs no trimming. */
  lemma SplitJoin(a: string, b: string)
    requires IsSegment(b)
    requires a == [] || a[|a| - 1] != Sep
    ensures Split(Join(a, b)) == (a, b)
  {
    SplitJoinTail(a, b);
    var p := Join(a, b);
    if a != [] {
      assert p[..|a| + 1] == a + [Sep];
      assert TrimSeps(a + [Sep]) == a by {
        assert (a + [Sep])[..|a|] == a;
      }
    }
  }

  /** The last part of a `JoinAll` is split off as its tail. */
  lemma JoinAllLast(a: string, parts: seq<string>, m: nat)
    requires 1 <= m <= |parts| && AllSegments(parts)
    ensures JoinAll(a, parts[..m]) == Join(JoinAll(a, parts[..m - 1]), parts[m - 1])
    ensures Split(JoinAll(a, parts[..m])).1 == parts[m - 1]
    ensures JoinAll(a, parts[..m]) != [] && JoinAll(a, parts[..m])[|JoinAll(a, parts[..m])| - 1] != Sep
  {
    assert parts[..m][..m - 1] == parts[..m - 1];
    SplitJoinTail(JoinAll(a, parts[..m - 1]), parts[m - 1]);
  }

  /** Beyond the first part, splitting a `JoinAll` gives back the shorter join as its head. */
  lemma JoinAllPeel(a: string, parts: seq<string>, m: nat)
    requires 2 <= m <= |parts| && AllSegments(parts)
    ensures Split(JoinAll(a, parts[..m])) == (JoinAll(a, parts[..m - 1]), parts[m - 1])
  {
    JoinAllLast(a, parts, m);
    JoinAllLast(a, parts, m - 1);
    SplitJoin(JoinAll(a, parts[..m - 1]), parts[m - 1]);
  }

  /** Peeling `n` components off a path built by `JoinAll` leaves the join of the other parts. */
  lemma {:induction false} JoinAllAncestor(a: string, parts: seq<string>, n: nat)
    requires AllSegments(parts) && n < |parts|
    ensures Ancestor(JoinAll(a, parts), n) == JoinAll(a, parts[..|parts| - n])
    decreases n
  {
    if n == 0 {
      assert parts[..|parts|] == parts;
    } else {
      var m := |parts| - n;
      JoinAllAncestor(a, parts, n - 1);
      PeelStep(JoinAll(a, parts), n - 1);
      JoinAllPeel(a, parts, m + 1);
    }
  }

  /** Peeling a path built by `JoinAll` recovers its parts, last first. */
  lemma JoinAllComponent(a: string, parts: seq<string>, n: nat)
    requires AllSegments(parts) && n < |parts|
    ensures Component(JoinAll(a, parts), n) == parts[|parts| - 1 - n]
  {
    PeelStep(JoinAll(a, parts), n);
    JoinAllAncestor(a, parts, n);
    JoinAllLast(a, parts, |parts| - n);
  }
}
