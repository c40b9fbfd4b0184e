/** Strings in code-point order, and sorting by a score and then by name. */
module Ordering {

  /** `a < b` on strings: the first difference decides, a proper prefix comes first. */
  predicate Less(a: string, b: string) {
    b != [] && (a == [] || a[0] < b[0] || (a[0] == b[0] && Less(a[1..], b[1..])))
  }

  lemma {:induction false} LessIsTotal(a: string, b: string)
    ensures a != b ==> Less(a, b) || Less(b, a)
    ensures !(Less(a, b) && Less(b, a)) && !Less(a, a)
  {
    if a != [] {
      LessIsTotal(a[1..], a[1..]);
      if b != [] {
        LessIsTotal(a[1..], b[1..]);
        assert a == [a[0]] + a[1..] && b == [b[0]] + b[1..];
      }
    }
  }

  lemma {:induction false} LessIsTransitive(a: string, b: string, c: string)
    requires Less(a, b) && Less(b, c)
    ensures Less(a, c)
  {
    if a != [] && a[0] == b[0] == c[0] {
      LessIsTransitive(a[1..], b[1..], c[1..]);
    }
  }

  /** Higher score first, then the smaller name. */
  /** Dictionary order: a proper beginning comes first, else the first character that differs decides. */
  lemma {:induction false} LessExactly(a: string, b: string)
    ensures Less(a, b) <==> exists n: nat :: DiffersAt(a, b, n)
  {
    if a != [] && b != [] && a[0] == b[0] {
      LessExactly(a[1..], b[1..]);
      forall n: nat ensures DiffersAt(a[1..], b[1..], n) <==> DiffersAt(a, b, n + 1) {
        if n < |a| && n < |b| {
          assert a[..n + 1] == [a[0]] + a[1..][..n] && b[..n + 1] == [b[0]] + b[1..][..n];
        }
      }
      assert !DiffersAt(a, b, 0);
      if n: nat :| DiffersAt(a, b, n) {
        assert DiffersAt(a[1..], b[1..], n - 1);
      }
    } else if Less(a, b) {
      assert DiffersAt(a, b, 0);
    } else {
      forall n: nat ensures !DiffersAt(a, b, n) {
        FirstAgrees(a, b, n);
      }
    }
  }

  lemma FirstAgrees(a: string, b: string, n: nat)
    ensures DiffersAt(a, b, n) && n > 0 ==> a != [] && b != [] && a[0] == b[0]
  {
    if 0 < n <= |a| && n <= |b| {
      assert a[0] == a[..n][0] && b[0] == b[..n][0];
    }
  }

  predicate DiffersAt(a: string, b: string, n: nat) {
    && n <= |a| && n < |b| && a[..n] == b[..n]
    && (n == |a| || a[n] < b[n])
  }

  predicate Before(scores: map<string, real>, a: string, b: string)
    requires a in scores && b in scores
  {
    scores[a] > scores[b] || (scores[a] == scores[b] && Less(a, b))
  }

  lemma BeforeIsTotal(scores: map<string, real>, a: string, b: string)
    requires a in scores && b in scores
    ensures a != b ==> Before(scores, a, b) || Before(scores, b, a)
    ensures !(Before(scores, a, b) && Before(scores, b, a)) && !Before(scores, a, a)
  {
    LessIsTotal(a, b);
    LessIsTotal(a, a);
  }

  lemma BeforeIsTransitive(scores: map<string, real>, a: string, b: string, c: string)
    requires a in scores && b in scores && c in scores && Before(scores, a, b) && Before(scores, b, c)
    ensures Before(scores, a, c)
  {
    if Less(a, b) && Less(b, c) {
      LessIsTransitive(a, b, c);
    }
  }

  predicate Known(scores: map<string, real>, names: seq<string>) {
    forall i | 0 <= i < |names| :: names[i] in scores
  }

  /** Strictly increasing in the order, so without repetition. */
  predicate InOrder(scores: map<string, real>, names: seq<string>)
    requires Known(scores, names)
  {
    forall i, j | 0 <= i < j < |names| :: Before(scores, names[i], names[j])
  }

  function Insert(scores: map<string, real>, name: string, names: seq<string>): (r: seq<string>)
    requires name in scores && Known(scores, names)
    ensures Known(scores, r)
    decreases |names|
  {
    if names == [] || Before(scores, name, names[0]) then [name] + names
    else [names[0]] + Insert(scores, name, names[1..])
  }

  /** `sorted` by score and name. */
  function Sort(scores: map<string, real>, names: seq<string>): (r: seq<string>)
    requires Known(scores, names)
    ensures Known(scores, r)
    decreases |names|
  {
    if names == [] then [] else Insert(scores, names[0], Sort(scores, names[1..]))
  }

  lemma {:induction false} InsertIsInOrder(scores: map<string, real>, name: string, names: seq<string>)
    requires name in scores && Known(scores, names) && InOrder(scores, names) && name !in names
    ensures InOrder(scores, Insert(scores, name, names))
    ensures forall x :: x in Insert(scores, name, names) <==> x == name || x in names
    ensures |Insert(scores, name, names)| == |names| + 1
    decreases |names|
  {
    hide Before;
    if names != [] {
      BeforeIsTotal(scores, name, names[0]);
      if Before(scores, name, names[0]) {
        forall i | 0 < i < |names| ensures Before(scores, name, names[i]) {
          BeforeIsTransitive(scores, name, names[0], names[i]);
        }
      } else {
        var rest := names[1..];
        InsertIsInOrder(scores, name, rest);
        assert names == [names[0]] + rest;
        var r := Insert(scores, name, rest);
        forall i | 0 <= i < |r| ensures Before(scores, names[0], r[i]) {
          assert r[i] in r;
          if r[i] != name {
            var j :| 0 <= j < |rest| && rest[j] == r[i];
            assert names[j + 1] == r[i];
          }
        }
      }
    }
  }

  /** Sorting distinct names puts them in order and keeps exactly them. */
  lemma {:induction false} SortIsInOrder(scores: map<string, real>, names: seq<string>)
    requires Known(scores, names) && forall i, j | 0 <= i < j < |names| :: names[i] != names[j]
    ensures InOrder(scores, Sort(scores, names))
    ensures forall x :: x in Sort(scores, names) <==> x in names
    ensures |Sort(scores, names)| == |names|
    decreases |names|
  {
    if names != [] {
      SortIsInOrder(scores, names[1..]);
      assert names == [names[0]] + names[1..];
      InsertIsInOrder(scores, names[0], Sort(scores, names[1..]));
    }
  }
}
