/** Counting the elements of sets. */
module Sets {
  lemma OnlyElement<T>(s: set<T>, x: T)
    requires x in s && |s| <= 1
    ensures s == {x}
  {
    assert |s - {x}| == 0;
  }

  lemma SubsetCount<T>(small: set<T>, big: set<T>)
    requires small <= big
    ensures |small| <= |big|
  {
    assert |big| == |small| + |big - small| by {
      assert big == small + (big - small);
    }
  }
}
