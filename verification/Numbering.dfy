/** Searches for an unused numbered name: they end because only so many names are used. */
module Numbering {
  import opened Text
  import opened Wrappers

  function Numbered(prefix: string, n: nat): string {
    prefix + Decimal(n)
  }

  lemma NumberedInjective(prefix: string, a: nat, b: nat)
    requires Numbered(prefix, a) == Numbered(prefix, b)
    ensures a == b
  {
    assert Decimal(a) == Numbered(prefix, a)[|prefix|..] == Numbered(prefix, b)[|prefix|..] == Decimal(b);
    DecimalInjective(a, b);
  }

  predicate TakenUpTo(used: set<string>, prefix: string, start: nat, n: nat) {
    start <= n && forall k :: start <= k < n ==> Numbered(prefix, k) in used
  }

  /** n is the least number from start on whose name is unused. */
  predicate LeastUnused(used: set<string>, prefix: string, start: nat, n: nat) {
    TakenUpTo(used, prefix, start, n) && Numbered(prefix, n) !in used
  }

  function Names(prefix: string, start: nat, n: nat): set<string>
    requires start <= n
  {
    set k | start <= k < n :: Numbered(prefix, k)
  }

  lemma {:induction false} NamesSize(prefix: string, start: nat, n: nat)
    requires start <= n
    ensures |Names(prefix, start, n)| == n - start
  {
    if start < n {
      NamesSize(prefix, start, n - 1);
      forall k | start <= k < n - 1 ensures Numbered(prefix, k) != Numbered(prefix, n - 1) {
        if Numbered(prefix, k) == Numbered(prefix, n - 1) {
          NumberedInjective(prefix, k, n - 1);
        }
      }
      assert Names(prefix, start, n) == Names(prefix, start, n - 1) + {Numbered(prefix, n - 1)};
    } else {
      assert Names(prefix, start, n) == {};
    }
  }

  /** Only so many names can be taken. */
  lemma TakenIsBounded(used: set<string>, prefix: string, start: nat, n: nat)
    ensures TakenUpTo(used, prefix, start, n) ==> n - start <= |used|
  {
    if TakenUpTo(used, prefix, start, n) {
      NamesSize(prefix, start, n);
      SubsetSize(Names(prefix, start, n), used);
    }
  }

  function FirstUnused(used: set<string>, prefix: string, start: nat, n: nat): (m: nat)
    requires TakenUpTo(used, prefix, start, n)
    ensures LeastUnused(used, prefix, start, m) && m <= start + |used|
    decreases start + |used| - n
  {
    TakenIsBounded(used, prefix, start, n);
    if Numbered(prefix, n) in used then
      TakenIsBounded(used, prefix, start, n + 1);
      FirstUnused(used, prefix, start, n + 1)
    else n
  }

  lemma LeastUnusedIsUnique(used: set<string>, prefix: string, start: nat, m: nat, n: nat)
    requires LeastUnused(used, prefix, start, m) && LeastUnused(used, prefix, start, n)
    ensures m == n
  {
  }
}
