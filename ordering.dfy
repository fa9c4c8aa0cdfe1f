/**
 * The final sort of FindServers (internal/detector/detector.go): by repository
 * name, then branch, both as Go string comparisons, then port.
 */
module Ordering {
  import opened Text
  import opened Types

  /**
   * The less function handed to sort.Slice: by repository name, then by
   * branch, then by port. A server is never less than itself, and never less
   * than one whose repository name (or, within one repository, branch) comes
   * before its own.
   */
  predicate ServerLess(x: Server, y: Server): (less: bool)
    ensures less ==> !StrLess(y.repo, x.repo)
    ensures less && x.repo == y.repo ==> !StrLess(y.branch, x.branch)
    ensures x == y ==> !less
  {
    StrLessTotal(x.repo, y.repo);
    StrLessTotal(x.branch, y.branch);
    if x.repo != y.repo then StrLess(x.repo, y.repo)
    else if x.branch != y.branch then StrLess(x.branch, y.branch)
    else x.port < y.port
  }

  /** `x` may stand before `y`: `y` is not less than `x`. */
  predicate ServerLe(x: Server, y: Server) {
    !ServerLess(y, x)
  }

  /** Non-decreasing in the order of the less function. */
  predicate Sorted(s: seq<Server>) {
    forall i, j :: 0 <= i < j < |s| ==> ServerLe(s[i], s[j])
  }

  lemma ServerLessAsymmetric(x: Server, y: Server)
    ensures ServerLess(x, y) ==> !ServerLess(y, x)
  {
    StrLessTotal(x.repo, y.repo);
    StrLessTotal(x.branch, y.branch);
  }

  /** Any two servers can be placed one way or the other. */
  lemma ServerLeTotal(x: Server, y: Server)
    ensures ServerLe(x, y) || ServerLe(y, x)
  {
    ServerLessAsymmetric(x, y);
  }

  lemma StrLeTransitive(a: string, b: string, c: string)
    requires !StrLess(b, a) && !StrLess(c, b)
    ensures !StrLess(c, a)
  {
    StrLessTotal(a, b);
    StrLessTotal(b, c);
    StrLessTotal(a, c);
    if StrLess(a, b) && StrLess(b, c) {
      StrLessTransitive(a, b, c);
    }
  }

  /** The less function is a strict weak order, so "may stand before" chains. */
  lemma ServerLeTransitive(x: Server, y: Server, z: Server)
    requires ServerLe(x, y) && ServerLe(y, z)
    ensures ServerLe(x, z)
  {
    StrLessTotal(x.repo, y.repo);
    StrLessTotal(y.repo, z.repo);
    StrLessTotal(x.repo, z.repo);
    StrLeTransitive(x.repo, y.repo, z.repo);
    if x.repo == y.repo && y.repo == z.repo {
      StrLessTotal(x.branch, y.branch);
      StrLessTotal(y.branch, z.branch);
      StrLessTotal(x.branch, z.branch);
      StrLeTransitive(x.branch, y.branch, z.branch);
    } else if x.repo == z.repo {
      StrLessIrreflexive(x.repo);
    }
  }

  method Swap(a: array<Server>, i: int, j: int)
    requires 0 <= i < j < a.Length
    modifies a
    ensures a[..] == old(a[..])[i := old(a[j])][j := old(a[i])]
    ensures multiset(a[..]) == old(multiset(a[..]))
  {
    a[i], a[j] := a[j], a[i];
  }

  /**
   * sort.Slice with the repo/branch/port less function, as an insertion sort:
   * the result is ordered and holds the same servers. Go's sort.Slice is not
   * stable, and nothing here says which of two equal servers comes first.
   */
  method SortServers(a: array<Server>)
    modifies a
    ensures Sorted(a[..])
    ensures multiset(a[..]) == old(multiset(a[..]))
  {
    var i := 0;
    while i < a.Length
      invariant 0 <= i <= a.Length
      invariant forall p, q :: 0 <= p < q < i ==> ServerLe(a[p], a[q])
      invariant multiset(a[..]) == old(multiset(a[..]))
    {
      var j := i;
      while j > 0 && ServerLess(a[j], a[j - 1])
        invariant 0 <= j <= i
        invariant forall p, q :: 0 <= p < q <= i && p != j && q != j ==> ServerLe(a[p], a[q])
        invariant forall q :: j < q <= i ==> ServerLe(a[j], a[q])
        invariant multiset(a[..]) == old(multiset(a[..]))
      {
        ServerLessAsymmetric(a[j], a[j - 1]);
        Swap(a, j - 1, j);
        j := j - 1;
      }
      forall p | 0 <= p < j
        ensures ServerLe(a[p], a[j])
      {
        ServerLeTotal(a[j - 1], a[j]);
        if p < j - 1 {
          ServerLeTransitive(a[p], a[j - 1], a[j]);
        }
      }
      i := i + 1;
    }
  }
}
