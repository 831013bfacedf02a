/** Facts about sequences and sets that several modules need. */
module Collections {
  lemma {:induction false} Regroup<T>(a: seq<T>, b: seq<T>, c: seq<T>)
    ensures (a + b) + c == a + (b + c)
  {
  }

  lemma {:induction false} SmallerSet<T>(less: set<T>, more: set<T>)
    requires less < more
    ensures |less| < |more|
  {
    assert more == less + (more - less);
  }

  /** Fewer of `whole` are left over once one more of them is used. */
  lemma {:induction false} Shrinks<T>(whole: set<T>, before: set<T>, after: set<T>, x: T)
    requires before <= after && x in whole && x in after && x !in before
    ensures |whole - after| < |whole - before|
  {
    assert whole - after < whole - before;
    SmallerSet(whole - after, whole - before);
  }
}
