/**
  Order-preserving selections over sequences, shared by the pages and parsers:
  JavaScript's `filter` and its length, and the list a loop builds by keeping
  what a partial reading accepts.
 */
module Lists {
  import opened Wrappers

  /** `list.filter(p)`. */
  function Select<T>(list: seq<T>, p: T -> bool): seq<T> {
    if list == [] then []
    else
      var n := |list| - 1;
      Select(list[..n], p) + (if p(list[n]) then [list[n]] else [])
  }

  /** Filtering works segment by segment, so it keeps the order of the list. */
  lemma {:induction false} SelectAppend<T>(a: seq<T>, b: seq<T>, p: T -> bool)
    ensures Select(a + b, p) == Select(a, p) + Select(b, p)
    decreases |b|
  {
    if b == [] {
      assert a + b == a;
    } else {
      var n := |b| - 1;
      assert (a + b)[..|a + b| - 1] == a + b[..n];
      assert (a + b)[|a + b| - 1] == b[n];
      SelectAppend(a, b[..n], p);
    }
  }

  /** Exactly the qualifying elements are kept: each kept one is in the list and qualifies, and each qualifying one is kept. */
  lemma {:induction false} SelectExactly<T>(list: seq<T>, p: T -> bool, x: T)
    ensures x in Select(list, p) <==> x in list && p(x)
  {
    if list != [] {
      var n := |list| - 1;
      assert list == list[..n] + [list[n]];
      SelectExactly(list[..n], p, x);
    }
  }

  /** A filter never keeps more than the list has. */
  lemma {:induction false} SelectShorter<T>(list: seq<T>, p: T -> bool)
    ensures |Select(list, p)| <= |list|
  {
    if list != [] {
      SelectShorter(list[..|list| - 1], p);
    }
  }

  /** The length of `list.filter(p)`. */
  function CountWhere<T>(list: seq<T>, p: T -> bool): nat {
    if list == [] then 0 else CountWhere(list[..|list| - 1], p) + (if p(list[|list| - 1]) then 1 else 0)
  }

  /** A count is at most the list's size; it is all of it or none of it exactly when every or no element qualifies. */
  lemma {:induction false} CountWhereBounds<T>(list: seq<T>, p: T -> bool)
    ensures CountWhere(list, p) <= |list|
    ensures CountWhere(list, p) == |list| <==> forall i :: 0 <= i < |list| ==> p(list[i])
    ensures CountWhere(list, p) == 0 <==> forall i :: 0 <= i < |list| ==> !p(list[i])
  {
    if list != [] {
      var n := |list| - 1;
      CountWhereBounds(list[..n], p);
      assert forall i :: 0 <= i < n ==> list[..n][i] == list[i];
    }
  }

  /** The values `f` reads from the items, in item order, skipping the items it rejects. */
  function Collect<T, U>(items: seq<T>, f: T -> Option<U>): seq<U> {
    if items == [] then []
    else
      var n := |items| - 1;
      Collect(items[..n], f) + (match f(items[n]) case Some(u) => [u] case None => [])
  }

  /** Collecting works part by part, in order. */
  lemma {:induction false} CollectAppend<T, U>(a: seq<T>, b: seq<T>, f: T -> Option<U>)
    ensures Collect(a + b, f) == Collect(a, f) + Collect(b, f)
    decreases |b|
  {
    if b == [] {
      assert a + b == a;
    } else {
      var n := |b| - 1;
      assert (a + b)[..|a + b| - 1] == a + b[..n];
      assert (a + b)[|a + b| - 1] == b[n];
      CollectAppend(a, b[..n], f);
    }
  }

  /** One more item adds its value, if it has one, at the end. */
  /** Reading a suffix from position `i` reads `xs[i]` first. */
  lemma {:induction false} CollectStep<T, U>(xs: seq<T>, i: nat, f: T -> Option<U>)
    requires i < |xs|
    ensures Collect(xs[i..], f) == (match f(xs[i]) case Some(u) => [u] case None => []) + Collect(xs[i + 1..], f)
  {
    assert xs[i..] == [xs[i]] + xs[i + 1..];
    CollectAppend([xs[i]], xs[i + 1..], f);
    assert [xs[i]][..0] == [];
  }

  lemma {:induction false} CollectSnoc<T, U>(items: seq<T>, x: T, f: T -> Option<U>)
    ensures Collect(items + [x], f) == Collect(items, f) + match f(x) case Some(u) => [u] case None => []
  {
    assert (items + [x])[..|items|] == items;
  }

  /** No more values than items. */
  lemma {:induction false} CollectShorter<T, U>(items: seq<T>, f: T -> Option<U>)
    ensures |Collect(items, f)| <= |items|
  {
    if items != [] {
      CollectShorter(items[..|items| - 1], f);
    }
  }

  /** Items that each read as a value give those values, in order. */
  lemma {:induction false} CollectAllRead<T, U>(items: seq<T>, f: T -> Option<U>, values: seq<U>)
    requires |items| == |values| && forall i :: 0 <= i < |items| ==> f(items[i]) == Some(values[i])
    ensures Collect(items, f) == values
  {
    if items != [] {
      var n := |items| - 1;
      CollectAllRead(items[..n], f, values[..n]);
      assert values == values[..n] + [values[n]];
    }
  }

  /**
    The values read from the kept items, in order, or the first failure: a
    loop that skips some items and raises on the first one it cannot read.
   */
  function Gather<T, U>(items: seq<T>, keep: T -> bool, read: T -> Result<U>): Result<seq<U>> {
    if items == [] then Ok([])
    else
      var n := |items| - 1;
      match Gather(items[..n], keep, read)
      case Err(e) => Err(e)
      case Ok(us) =>
        if !keep(items[n]) then Ok(us)
        else
          match read(items[n])
          case Err(e) => Err(e)
          case Ok(u) => Ok(us + [u])
  }

  /**
    Gathering succeeds exactly when every kept item reads, and then holds one
    value per kept item, in order.
   */
  lemma {:induction false} GatherSpec<T, U>(items: seq<T>, keep: T -> bool, read: T -> Result<U>)
    ensures Gather(items, keep, read).Ok? <==>
      forall j :: 0 <= j < |Select(items, keep)| ==> read(Select(items, keep)[j]).Ok?
    ensures Gather(items, keep, read).Ok? ==>
      |Gather(items, keep, read).value| == |Select(items, keep)| &&
      forall j :: 0 <= j < |Select(items, keep)| ==> Ok(Gather(items, keep, read).value[j]) == read(Select(items, keep)[j])
  {
    if items != [] {
      var n := |items| - 1;
      var pre := items[..n];
      GatherSpec(pre, keep, read);
      var kp := Select(pre, keep);
      var kr := Select(items, keep);
      assert kr == kp + if keep(items[n]) then [items[n]] else [];
      assert forall j :: 0 <= j < |kp| ==> kr[j] == kp[j];
      if keep(items[n]) {
        assert kr[|kp|] == items[n];
        if Gather(pre, keep, read).Ok? && read(items[n]).Err? {
          assert !read(kr[|kp|]).Ok?;
        }
      }
      if Gather(pre, keep, read).Err? {
        var j :| 0 <= j < |kp| && !read(kp[j]).Ok?;
        assert !read(kr[j]).Ok?;
      }
    }
  }

  /** Once a prefix fails, the whole gathering fails with the same error. */
  lemma {:induction false} GatherErrExtends<T, U>(items: seq<T>, keep: T -> bool, read: T -> Result<U>, i: int)
    requires 0 <= i <= |items| && Gather(items[..i], keep, read).Err?
    ensures Gather(items, keep, read) == Gather(items[..i], keep, read)
    decreases |items| - i
  {
    if i < |items| {
      assert items[..i + 1][..i] == items[..i];
      GatherErrExtends(items, keep, read, i + 1);
    } else {
      assert items[..i] == items;
    }
  }

  /** Filtering by two tests that agree on the list gives the same list. */
  lemma {:induction false} SelectSame<T>(list: seq<T>, p: T -> bool, q: T -> bool)
    requires forall i :: 0 <= i < |list| ==> p(list[i]) == q(list[i])
    ensures Select(list, p) == Select(list, q)
  {
    if list != [] {
      SelectSame(list[..|list| - 1], p, q);
    }
  }

  /** Every collected value is the value `f` reads from one of the items. */
  lemma {:induction false} CollectFrom<T, U>(items: seq<T>, f: T -> Option<U>, k: int)
    requires 0 <= k < |Collect(items, f)|
    ensures exists i :: 0 <= i < |items| && f(items[i]) == Some(Collect(items, f)[k])
  {
    var n := |items| - 1;
    var pre := items[..n];
    if k < |Collect(pre, f)| {
      CollectFrom(pre, f, k);
      var i :| 0 <= i < |pre| && f(pre[i]) == Some(Collect(pre, f)[k]);
      assert items[i] == pre[i];
    } else {
      assert f(items[n]) == Some(Collect(items, f)[k]);
    }
  }

  /** A property every read value has, every collected value has. */
  lemma {:induction false} CollectHolds<T, U>(items: seq<T>, f: T -> Option<U>, p: U -> bool)
    requires forall i :: 0 <= i < |items| && f(items[i]).Some? ==> p(f(items[i]).value)
    ensures forall k :: 0 <= k < |Collect(items, f)| ==> p(Collect(items, f)[k])
  {
    forall k | 0 <= k < |Collect(items, f)| ensures p(Collect(items, f)[k]) {
      CollectFrom(items, f, k);
    }
  }

  /** The same, for membership: a property of every read value holds of every collected one. */
  lemma {:induction false} CollectIn<T, U>(items: seq<T>, f: T -> Option<U>, p: U -> bool)
    requires forall i :: 0 <= i < |items| && f(items[i]).Some? ==> p(f(items[i]).value)
    ensures forall x :: x in Collect(items, f) ==> p(x)
  {
    CollectHolds(items, f, p);
  }

  /** A prefix one longer is the prefix and the next element. */
  lemma {:induction false} TakeSnoc<T>(xs: seq<T>, i: nat)
    requires i < |xs|
    ensures xs[..i + 1] == xs[..i] + [xs[i]]
  {
  }

  /** An infix one longer is the infix and the next element. */
  lemma {:induction false} SliceSnoc<T>(xs: seq<T>, a: nat, b: nat)
    requires a <= b < |xs|
    ensures xs[a..b + 1] == xs[a..b] + [xs[b]]
  {
  }

  /** Every value `f` reads from an item is collected. */
  lemma {:induction false} CollectContains<T, U>(items: seq<T>, f: T -> Option<U>, i: nat)
    requires i < |items| && f(items[i]).Some?
    ensures f(items[i]).value in Collect(items, f)
    decreases |items|
  {
    var n := |items| - 1;
    if i < n {
      assert items[..n][i] == items[i];
      CollectContains(items[..n], f, i);
    }
  }

  /** Reading a suffix from position `a` keeps every value read from an item at or after `a`. */
  lemma {:induction false} CollectContainsFrom<T, U>(xs: seq<T>, a: nat, i: nat, f: T -> Option<U>)
    requires a <= i < |xs| && f(xs[i]).Some?
    ensures f(xs[i]).value in Collect(xs[a..], f)
  {
    assert xs[a..][i - a] == xs[i];
    CollectContains(xs[a..], f, i - a);
  }

  /** Every value read from a suffix from position `a` comes from an item at or after `a`. */
  lemma {:induction false} CollectFromSuffix<T, U>(xs: seq<T>, a: nat, f: T -> Option<U>, x: U)
    requires a <= |xs| && x in Collect(xs[a..], f)
    ensures exists i :: a <= i < |xs| && f(xs[i]) == Some(x)
  {
    var j :| 0 <= j < |Collect(xs[a..], f)| && Collect(xs[a..], f)[j] == x;
    CollectFrom(xs[a..], f, j);
    var i :| 0 <= i < |xs[a..]| && f(xs[a..][i]) == Some(x);
    assert xs[a..][i] == xs[a + i];
  }

  /** The concatenation of the pieces, in order. */
  function Flatten<T>(xss: seq<seq<T>>): seq<T> {
    if xss == [] then [] else Flatten(xss[..|xss| - 1]) + xss[|xss| - 1]
  }

  lemma {:induction false} FlattenSnoc<T>(xss: seq<seq<T>>, xs: seq<T>)
    ensures Flatten(xss + [xs]) == Flatten(xss) + xs
  {
    assert (xss + [xs])[..|xss|] == xss;
  }

  /** The index of the last item that satisfies `p`, or -1 when none does. */
  function LastWhere<T>(xs: seq<T>, p: T -> bool): (r: int)
    ensures -1 <= r < |xs|
    ensures r == -1 ==> forall j :: 0 <= j < |xs| ==> !p(xs[j])
    ensures r >= 0 ==> p(xs[r]) && forall j :: r < j < |xs| ==> !p(xs[j])
  {
    if xs == [] then -1
    else
      var n := |xs| - 1;
      if p(xs[n]) then n
      else
        var pre := xs[..n];
        assert forall j :: 0 <= j < n ==> xs[j] == pre[j];
        LastWhere(pre, p)
  }

  /** The value `f` reads from the first item it reads one from. */
  function First<T, U>(xs: seq<T>, f: T -> Option<U>): (r: Option<U>)
    ensures r.None? <==> forall i :: 0 <= i < |xs| ==> f(xs[i]).None?
    ensures r.Some? ==> exists i :: 0 <= i < |xs| && f(xs[i]) == r && forall l :: 0 <= l < i ==> f(xs[l]).None?
  {
    if xs == [] then None
    else if f(xs[0]).Some? then f(xs[0])
    else
      var r := First(xs[1..], f);
      assert forall i :: 0 < i < |xs| ==> xs[i] == xs[1..][i - 1];
      assert r.Some? ==> exists i :: 1 <= i < |xs| && f(xs[i]) == r && forall l :: 0 <= l < i ==> f(xs[l]).None? by {
        if r.Some? {
          var i :| 0 <= i < |xs[1..]| && f(xs[1..][i]) == r && forall l :: 0 <= l < i ==> f(xs[1..][l]).None?;
          assert forall l :: 1 <= l < i + 1 ==> xs[l] == xs[1..][l - 1];
        }
      }
      r
  }

  /** The first item `f` reads a value from decides `First`. */
  lemma {:induction false} FirstAt<T, U>(xs: seq<T>, f: T -> Option<U>, i: nat)
    requires i < |xs| && f(xs[i]).Some?
    requires forall l :: 0 <= l < i ==> f(xs[l]).None?
    ensures First(xs, f) == f(xs[i])
  {
    if i > 0 {
      assert f(xs[0]).None?;
      assert xs[1..][i - 1] == xs[i];
      forall l | 0 <= l < i - 1
        ensures f(xs[1..][l]).None?
      {
        assert xs[1..][l] == xs[l + 1];
      }
      FirstAt(xs[1..], f, i - 1);
    }
  }

  /** A loop over the items that stops at the first one `f` reads a value from. */
  method FindFirst<T, U>(xs: seq<T>, f: T -> Option<U>) returns (r: Option<U>)
    ensures r == First(xs, f)
  {
    r := None;
    var k := 0;
    while k < |xs|
      invariant k <= |xs| && First(xs[k..], f) == First(xs, f)
      decreases |xs| - k
    {
      var v := f(xs[k]);
      if v.Some? {
        r := v;
        return;
      }
      assert xs[k..][1..] == xs[k + 1..];
      k := k + 1;
    }
  }
}
