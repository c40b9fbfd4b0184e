/** What sequences share, whatever they hold. */
module Collections {

  lemma SameMembers<T>(x: seq<T>, y: seq<T>)
    requires multiset(x) == multiset(y)
    ensures |x| == |y| && forall e :: e in x <==> e in y
  {
    assert |x| == |multiset(x)| == |multiset(y)| == |y|;
    forall e ensures e in x <==> e in y {
      assert e in x <==> e in multiset(x);
      assert e in y <==> e in multiset(y);
    }
  }

  /** The first rows, at most `limit` of them. */
  function FirstOf<T>(rows: seq<T>, limit: nat): (r: seq<T>)
    ensures r <= rows && |r| == if |rows| < limit then |rows| else limit
  {
    if |rows| <= limit then rows else rows[..limit]
  }

  /** Rows put in front push the others out. */
  lemma FirstOfConcat<T>(x: seq<T>, y: seq<T>, limit: nat)
    ensures |x| >= limit ==> FirstOf(x + y, limit) == x[..limit]
    ensures |x| < limit ==> FirstOf(x + y, limit) == x + FirstOf(y, limit - |x|)
  {
  }
}
