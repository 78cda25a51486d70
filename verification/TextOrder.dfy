/** The order of strings: character by character, a prefix first. */
module TextOrder {

  /** The order of strings. */
  predicate TextLe(a: string, b: string)
    decreases a
  {
    a == [] || (b != [] && (a[0] < b[0] || (a[0] == b[0] && TextLe(a[1..], b[1..]))))
  }

  /** Texts with equally long fronts are ordered by the fronts, then by what follows. */
  lemma {:induction false} TextLeSplit(a: string, x: string, b: string, y: string)
    requires |a| == |b|
    ensures TextLe(a + x, b + y) <==> if a == b then TextLe(x, y) else TextLe(a, b)
    decreases a
  {
    if a == [] {
      assert a + x == x && b + y == y;
    } else {
      assert (a + x)[1..] == a[1..] + x && (b + y)[1..] == b[1..] + y;
      assert a == [a[0]] + a[1..] && b == [b[0]] + b[1..];
      TextLeSplit(a[1..], x, b[1..], y);
    }
  }

  lemma {:induction false} TextLeTotal(a: string, b: string)
    ensures TextLe(a, b) || TextLe(b, a)
    ensures TextLe(a, b) && TextLe(b, a) <==> a == b
    decreases a
  {
    if a != [] && b != [] {
      TextLeTotal(a[1..], b[1..]);
      assert a == [a[0]] + a[1..] && b == [b[0]] + b[1..];
    }
  }

  lemma {:induction false} TextLeTransitive(a: string, b: string, c: string)
    requires TextLe(a, b) && TextLe(b, c)
    ensures TextLe(a, c)
    decreases a
  {
    if a != [] && a[0] == b[0] && b[0] == c[0] {
      TextLeTransitive(a[1..], b[1..], c[1..]);
    }
  }

  // ---- sorted lists without repeats -----------------------------------------------------------------------

  function InsertOnce(x: string, sorted: seq<string>): seq<string> {
    if sorted == [] then [x]
    else if x == sorted[0] then sorted
    else if TextLe(x, sorted[0]) then [x] + sorted
    else [sorted[0]] + InsertOnce(x, sorted[1..])
  }

  /** The members in ascending order, each once. */
  function Ascending(xs: seq<string>): seq<string> {
    if xs == [] then [] else InsertOnce(xs[0], Ascending(xs[1..]))
  }

  ghost predicate IsAscending(xs: seq<string>) {
    forall i, j :: 0 <= i < j < |xs| ==> xs[i] != xs[j] && TextLe(xs[i], xs[j])
  }

  lemma {:induction false} InsertOnceMembers(x: string, sorted: seq<string>)
    ensures forall y :: y in InsertOnce(x, sorted) <==> y == x || y in sorted
  {
    if sorted != [] {
      InsertOnceMembers(x, sorted[1..]);
      assert sorted == [sorted[0]] + sorted[1..];
    }
  }

  lemma {:induction false} InsertOnceAscends(x: string, sorted: seq<string>)
    requires IsAscending(sorted)
    ensures IsAscending(InsertOnce(x, sorted))
  {
    if sorted == [] || x == sorted[0] {
    } else if TextLe(x, sorted[0]) {
      forall j | 0 <= j < |sorted|
        ensures x != sorted[j] && TextLe(x, sorted[j])
      {
        if j > 0 {
          TextLeTransitive(x, sorted[0], sorted[j]);
          TextLeTotal(x, sorted[0]);
          TextLeTotal(sorted[0], sorted[j]);
        }
      }
    } else {
      var rest := InsertOnce(x, sorted[1..]);
      InsertOnceAscends(x, sorted[1..]);
      InsertOnceMembers(x, sorted[1..]);
      TextLeTotal(x, sorted[0]);
      forall j | 0 <= j < |rest|
        ensures sorted[0] != rest[j] && TextLe(sorted[0], rest[j])
      {
        assert rest[j] in rest;
      }
    }
  }

  lemma {:induction false} AscendingSorts(xs: seq<string>)
    ensures IsAscending(Ascending(xs)) && forall y :: y in Ascending(xs) <==> y in xs
    decreases xs
  {
    if xs != [] {
      AscendingSorts(xs[1..]);
      InsertOnceAscends(xs[0], Ascending(xs[1..]));
      InsertOnceMembers(xs[0], Ascending(xs[1..]));
      assert xs == [xs[0]] + xs[1..];
    }
  }

  lemma {:induction false} AscendingStays(xs: seq<string>)
    requires IsAscending(xs)
    ensures Ascending(xs) == xs
    decreases xs
  {
    if xs != [] {
      AscendingStays(xs[1..]);
      assert |xs| > 1 ==> xs[0] != xs[1] && TextLe(xs[0], xs[1]);
    }
  }
}
