/** The order syslog outputs are rendered in, and when it determines the list. */
module SinkOrder {
  import opened GoLang

  /** One syslog output (the `sink` record); `tls` holds InsecureSkipVerify when TLS is on. */
  datatype Output = Output(addr: string, namespace: string, tls: Option<bool>, name: string)

  predicate Less(a: Output, b: Output) {
    if a.namespace != b.namespace then StringLess(a.namespace, b.namespace) else StringLess(a.name, b.name)
  }

  predicate SameKey(a: Output, b: Output) {
    a.namespace == b.namespace && a.name == b.name
  }

  lemma LessTotal(a: Output, b: Output)
    ensures Less(a, b) || Less(b, a) || SameKey(a, b)
    ensures Less(a, b) ==> !Less(b, a)
  {
    StringLessTotal(a.namespace, b.namespace);
    StringLessTotal(a.name, b.name);
    if Less(a, b) {
      if a.namespace != b.namespace {
        StringLessAsymmetric(a.namespace, b.namespace);
      } else {
        StringLessAsymmetric(a.name, b.name);
      }
    }
  }

  lemma LessTransitive(a: Output, b: Output, c: Output)
    requires Less(a, b) && Less(b, c)
    ensures Less(a, c)
  {
    if a.namespace != b.namespace && b.namespace != c.namespace {
      StringLessTransitive(a.namespace, b.namespace, c.namespace);
      StringLessAsymmetric(a.namespace, c.namespace);
    } else if a.namespace == b.namespace == c.namespace {
      StringLessTransitive(a.name, b.name, c.name);
    }
  }

  lemma NotLessTransitive(a: Output, b: Output, c: Output)
    requires !Less(b, a) && !Less(c, b)
    ensures !Less(c, a)
  {
    if Less(c, a) {
      LessTotal(a, b);
      LessTotal(b, c);
      if Less(a, b) {
        LessTransitive(c, a, b);
      } else if Less(b, c) {
        LessTransitive(b, c, a);
      }
    }
  }

  ghost predicate Sorted(s: seq<Output>) {
    forall i, j | 0 <= i < j < |s| :: !Less(s[j], s[i])
  }

  /** What `sort.Slice` promises: some sorted permutation; equal elements may come in any order. */
  ghost predicate SortOf(sorted: seq<Output>, s: seq<Output>) {
    multiset(sorted) == multiset(s) && Sorted(sorted)
  }

  function Insert(x: Output, s: seq<Output>): (r: seq<Output>)
    requires Sorted(s)
    ensures SortOf(r, [x] + s)
  {
    if s == [] then [x]
    else if Less(s[0], x) then
      var tail := Insert(x, s[1..]);
      InsertBehind(x, s, tail);
      [s[0]] + tail
    else
      InsertInFront(x, s);
      [x] + s
  }

  lemma InsertBehind(x: Output, s: seq<Output>, tail: seq<Output>)
    requires s != [] && Sorted(s) && Less(s[0], x) && SortOf(tail, [x] + s[1..])
    ensures SortOf([s[0]] + tail, [x] + s)
  {
    assert s == [s[0]] + s[1..];
    forall j | 0 <= j < |tail| ensures !Less(tail[j], s[0]) {
      assert tail[j] in multiset([x] + s[1..]);
      LessTotal(s[0], x);
    }
  }

  lemma InsertInFront(x: Output, s: seq<Output>)
    requires s != [] && Sorted(s) && !Less(s[0], x)
    ensures SortOf([x] + s, [x] + s)
  {
    forall j | 0 <= j < |s| ensures !Less(s[j], x) {
      if j > 0 {
        NotLessTransitive(x, s[0], s[j]);
      }
    }
  }

  function Sort(s: seq<Output>): (r: seq<Output>)
    ensures SortOf(r, s)
  {
    if s == [] then []
    else
      assert s == [s[0]] + s[1..];
      Insert(s[0], Sort(s[1..]))
  }

  /** No two different outputs share namespace and name. */
  ghost predicate TieFree(s: seq<Output>) {
    forall x, y | x in s && y in s && SameKey(x, y) :: x == y
  }

  lemma SortedHead(a: seq<Output>, b: seq<Output>)
    requires Sorted(a) && Sorted(b) && multiset(a) == multiset(b) && a != []
    ensures b != [] && SameKey(a[0], b[0]) && b[0] in a
  {
    assert a[0] in multiset(b);
    assert b[0] in multiset(a);
    var i :| 0 <= i < |b| && b[i] == a[0];
    var j :| 0 <= j < |a| && a[j] == b[0];
    LessTotal(a[0], b[0]);
  }

  lemma TailMultiset(s: seq<Output>)
    requires s != []
    ensures multiset(s) - multiset{s[0]} == multiset(s[1..])
  {
    assert s == [s[0]] + s[1..];
  }

  lemma {:induction false} SortedUnique(a: seq<Output>, b: seq<Output>)
    requires Sorted(a) && Sorted(b) && multiset(a) == multiset(b) && TieFree(a)
    ensures a == b
    decreases |a|
  {
    hide Less, SameKey;
    if a == [] {
      assert |multiset(b)| == 0;
    } else {
      SortedHead(a, b);
      assert a[0] == b[0];
      TailMultiset(a);
      TailMultiset(b);
      SortedUnique(a[1..], b[1..]);
      assert a == [a[0]] + a[1..] && b == [b[0]] + b[1..];
    }
  }

  /** Exchanging two outputs with the same key keeps a list sorted. */
  lemma SwapTies(s: seq<Output>, i: nat, j: nat)
    requires Sorted(s) && i < |s| && j < |s| && SameKey(s[i], s[j])
    ensures SortOf(s[i := s[j]][j := s[i]], s)
  {
    var t := s[i := s[j]][j := s[i]];
    assert forall k | 0 <= k < |s| :: SameKey(t[k], s[k]);
    assert multiset(t) == multiset(s);
  }

  lemma TiesGiveTwoOrders(s: seq<Output>, x: Output, y: Output) returns (a: seq<Output>, b: seq<Output>)
    requires x in s && y in s && SameKey(x, y) && x != y
    ensures SortOf(a, s) && SortOf(b, s) && a != b
  {
    hide Less;
    a := Sort(s);
    assert x in multiset(a) && y in multiset(a);
    var i :| 0 <= i < |a| && a[i] == x;
    var j :| 0 <= j < |a| && a[j] == y;
    SwapTies(a, i, j);
    b := a[i := a[j]][j := a[i]];
    assert b[j] == x != a[j];
  }

  /** The sorted list is determined by its elements exactly when no two of them tie. */
  lemma SortingIsDeterminate(s: seq<Output>)
    ensures TieFree(s) <==> forall a, b | SortOf(a, s) && SortOf(b, s) :: a == b
  {
    hide Less, SameKey;
    if TieFree(s) {
      forall a, b | SortOf(a, s) && SortOf(b, s) ensures a == b {
        SortingIsUnique(s, a, b);
      }
    } else {
      var x, y :| x in s && y in s && SameKey(x, y) && x != y;
      var a, b := TiesGiveTwoOrders(s, x, y);
    }
  }

  lemma SortingIsUnique(s: seq<Output>, a: seq<Output>, b: seq<Output>)
    requires TieFree(s) && SortOf(a, s) && SortOf(b, s)
    ensures a == b
  {
    hide Less, SameKey;
    assert forall x :: x in a <==> x in multiset(s);
    SortedUnique(a, b);
  }
}
