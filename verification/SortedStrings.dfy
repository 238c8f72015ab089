/** `sorted(set(...))`: the strictly ascending list of a collection of strings. */
module SortedStrings {

  /** Lexicographic order by character. */
  predicate Less(a: string, b: string) {
    if b == "" then false
    else if a == "" then true
    else a[0] < b[0] || (a[0] == b[0] && Less(a[1..], b[1..]))
  }

  /** One string is before another exactly when it is a proper beginning of it, or has the smaller character where the two
      first differ. */
  lemma {:induction false} LessExactly(a: string, b: string)
    ensures Less(a, b) <==> exists k :: FirstDifference(a, b, k)
  {
    if a == "" || b == "" || a[0] != b[0] {
      assert Less(a, b) ==> FirstDifference(a, b, 0);
    } else {
      LessExactly(a[1..], b[1..]);
      if k :| FirstDifference(a[1..], b[1..], k) {
        assert forall i :: 0 < i < |a| && i < |b| ==> a[i] == a[1..][i - 1] && b[i] == b[1..][i - 1];
        assert FirstDifference(a, b, k + 1);
      }
      if k :| FirstDifference(a, b, k) {
        assert FirstDifference(a[1..], b[1..], k - 1);
      }
    }
  }

  predicate FirstDifference(a: string, b: string, k: int) {
    0 <= k <= |a| && k < |b| && (forall i :: 0 <= i < k ==> a[i] == b[i]) && (k == |a| || a[k] < b[k])
  }

  lemma {:induction false} LessTransitive(a: string, b: string, c: string)
    requires Less(a, b) && Less(b, c)
    ensures Less(a, c)
  {
    if a != "" && a[0] == b[0] == c[0] {
      LessTransitive(a[1..], b[1..], c[1..]);
    }
  }

  lemma {:induction false} LessIrreflexive(a: string)
    ensures !Less(a, a)
  {
    if a != "" {
      LessIrreflexive(a[1..]);
    }
  }

  lemma {:induction false} LessTotal(a: string, b: string)
    ensures Less(a, b) || a == b || Less(b, a)
    ensures !(Less(a, b) && Less(b, a))
  {
    if a != "" && b != "" {
      assert a == [a[0]] + a[1..] && b == [b[0]] + b[1..];
      LessTotal(a[1..], b[1..]);
    }
  }

  predicate Ascending(xs: seq<string>) { forall i, j :: 0 <= i < j < |xs| ==> Less(xs[i], xs[j]) }

  function Elements(xs: seq<string>): set<string> { set x | x in xs }

  function Insert(x: string, xs: seq<string>): seq<string> {
    if xs == [] then [x]
    else if x == xs[0] then xs
    else if Less(x, xs[0]) then [x] + xs
    else [xs[0]] + Insert(x, xs[1..])
  }

  lemma ElementsCons(x: string, xs: seq<string>)
    ensures Elements([x] + xs) == {x} + Elements(xs)
  {
  }

  lemma AscendingCons(x: string, xs: seq<string>)
    requires Ascending(xs) && forall j :: 0 <= j < |xs| ==> Less(x, xs[j])
    ensures Ascending([x] + xs)
  {
  }

  lemma FirstIsLeast(x: string, xs: seq<string>)
    requires Ascending(xs) && xs != [] && Less(x, xs[0])
    ensures forall j :: 0 <= j < |xs| ==> Less(x, xs[j])
  {
    forall j | 0 < j < |xs| ensures Less(x, xs[j]) {
      LessTransitive(x, xs[0], xs[j]);
    }
  }

  lemma {:induction false} InsertAscends(x: string, xs: seq<string>)
    requires Ascending(xs)
    ensures Ascending(Insert(x, xs)) && Elements(Insert(x, xs)) == Elements(xs) + {x}
  {
    if xs != [] && x != xs[0] {
      assert xs == [xs[0]] + xs[1..];
      ElementsCons(xs[0], xs[1..]);
      if Less(x, xs[0]) {
        FirstIsLeast(x, xs);
        AscendingCons(x, xs);
        ElementsCons(x, xs);
      } else {
        LessTotal(x, xs[0]);
        var rest := Insert(x, xs[1..]);
        InsertAscends(x, xs[1..]);
        forall j | 0 <= j < |rest| ensures Less(xs[0], rest[j]) {
          assert rest[j] in Elements(rest);
        }
        AscendingCons(xs[0], rest);
        ElementsCons(xs[0], rest);
      }
    }
  }

  /** `sorted(set(xs))`. */
  function SortedSet(xs: seq<string>): (r: seq<string>)
    ensures Ascending(r) && Elements(r) == Elements(xs)
  {
    if xs == [] then []
    else
      var rest := SortedSet(xs[1..]);
      InsertAscends(xs[0], rest);
      assert Elements(xs) == {xs[0]} + Elements(xs[1..]) by {
        assert xs == [xs[0]] + xs[1..];
      }
      Insert(xs[0], rest)
  }

  lemma NoElements(xs: seq<string>)
    ensures Elements(xs) == {} <==> xs == []
  {
    if xs != [] {
      assert xs[0] in Elements(xs);
    }
  }

  /** An ascending list is determined by its elements. */
  lemma {:induction false} AscendingUnique(a: seq<string>, b: seq<string>)
    requires Ascending(a) && Ascending(b) && Elements(a) == Elements(b)
    ensures a == b
  {
    if a == [] {
      NoElements(b);
    } else {
      assert a[0] in Elements(b) && b != [];
      HeadsAgree(a, b);
      TailElements(a);
      TailElements(b);
      AscendingUnique(a[1..], b[1..]);
      assert a == [a[0]] + a[1..] && b == [b[0]] + b[1..];
    }
  }

  lemma HeadsAgree(a: seq<string>, b: seq<string>)
    requires Ascending(a) && Ascending(b) && Elements(a) == Elements(b) && a != [] && b != []
    ensures a[0] == b[0]
  {
    assert a[0] in Elements(b) && b[0] in Elements(a);
    var i :| 0 <= i < |b| && b[i] == a[0];
    var j :| 0 <= j < |a| && a[j] == b[0];
    LessTotal(a[0], b[0]);
  }

  lemma TailElements(a: seq<string>)
    requires Ascending(a) && a != []
    ensures Elements(a[1..]) == Elements(a) - {a[0]}
  {
    LessIrreflexive(a[0]);
    assert a == [a[0]] + a[1..];
  }
}
