/** The stable ascending sort behind `list.sort` and `ORDER BY major, minor`, and filtering. */
module Ordering {
  import opened Outcomes

  datatype Rank = Rank(major: int, minor: int)

  predicate Before(a: Rank, b: Rank) {
    a.major < b.major || (a.major == b.major && a.minor < b.minor)
  }

  ghost predicate Ordered<T(!new)>(key: T -> Rank, s: seq<T>) {
    forall i, j :: 0 <= i < j < |s| ==> !Before(key(s[j]), key(s[i]))
  }

  /** Index of the first element that must come after `x`. */
  function Slot<T(!new)>(key: T -> Rank, x: T, s: seq<T>): (n: nat)
    ensures n <= |s|
    ensures forall i :: 0 <= i < n ==> !Before(key(x), key(s[i]))
    ensures n < |s| ==> Before(key(x), key(s[n]))
  {
    if |s| == 0 || Before(key(x), key(s[0])) then 0 else 1 + Slot(key, x, s[1..])
  }

  function InsertBy<T(!new)>(key: T -> Rank, x: T, s: seq<T>): seq<T> {
    var n := Slot(key, x, s);
    s[..n] + [x] + s[n..]
  }

  function SortBy<T(!new)>(key: T -> Rank, s: seq<T>): seq<T> {
    if |s| == 0 then [] else InsertBy(key, s[|s| - 1], SortBy(key, s[..|s| - 1]))
  }

  /** The elements that satisfy `p`, in their original order. */
  function Keep<T(!new)>(p: T -> bool, s: seq<T>): seq<T> {
    if |s| == 0 then []
    else Keep(p, s[..|s| - 1]) + (if p(s[|s| - 1]) then [s[|s| - 1]] else [])
  }

  lemma {:induction false} InsertKeepsOrder<T(!new)>(key: T -> Rank, x: T, s: seq<T>)
    requires Ordered(key, s)
    ensures Ordered(key, InsertBy(key, x, s))
  {
  }

  lemma {:induction false} InsertAddsOne<T(!new)>(key: T -> Rank, x: T, s: seq<T>)
    ensures multiset(InsertBy(key, x, s)) == multiset(s) + multiset{x}
  {
    var n := Slot(key, x, s);
    assert s == s[..n] + s[n..];
  }

  /** Sorting yields an ordered permutation. */
  lemma {:induction false} SortSorts<T(!new)>(key: T -> Rank, s: seq<T>)
    ensures Ordered(key, SortBy(key, s))
    ensures multiset(SortBy(key, s)) == multiset(s)
  {
    if |s| > 0 {
      var init, x := s[..|s| - 1], s[|s| - 1];
      SortSorts(key, init);
      InsertKeepsOrder(key, x, SortBy(key, init));
      InsertAddsOne(key, x, SortBy(key, init));
      assert s == init + [x];
    }
  }

  /** Sorting looks at the keys only. */
  lemma {:induction false} SortAgree<T(!new)>(key: T -> Rank, key': T -> Rank, s: seq<T>)
    requires forall x :: key(x) == key'(x)
    ensures SortBy(key, s) == SortBy(key', s)
  {
    if |s| > 0 {
      SortAgree(key, key', s[..|s| - 1]);
      SlotAgree(key, key', s[|s| - 1], SortBy(key, s[..|s| - 1]));
    }
  }

  lemma {:induction false} SlotAgree<T(!new)>(key: T -> Rank, key': T -> Rank, x: T, s: seq<T>)
    requires forall x :: key(x) == key'(x)
    ensures Slot(key, x, s) == Slot(key', x, s)
  {
    if |s| > 0 {
      SlotAgree(key, key', x, s[1..]);
    }
  }

  lemma {:induction false} SortOfOrdered<T(!new)>(key: T -> Rank, s: seq<T>)
    requires Ordered(key, s)
    ensures SortBy(key, s) == s
  {
    if |s| > 0 {
      var init, x := s[..|s| - 1], s[|s| - 1];
      SortOfOrdered(key, init);
      assert Slot(key, x, init) == |init|;
      assert s == init + [x];
    }
  }

  lemma {:induction false} KeepAppend<T(!new)>(p: T -> bool, a: seq<T>, b: seq<T>)
    ensures Keep(p, a + b) == Keep(p, a) + Keep(p, b)
  {
    if |b| == 0 {
      assert a + b == a;
    } else {
      KeepAppend(p, a, b[..|b| - 1]);
      assert (a + b)[..|a + b| - 1] == a + b[..|b| - 1];
    }
  }

  lemma {:induction false} KeepOne<T(!new)>(p: T -> bool, x: T)
    ensures Keep(p, [x]) == if p(x) then [x] else []
  {
  }

  lemma {:induction false} KeepMembers<T(!new)>(p: T -> bool, s: seq<T>)
    ensures forall x :: x in Keep(p, s) <==> x in s && p(x)
    ensures |Keep(p, s)| <= |s|
  {
    if |s| > 0 {
      KeepMembers(p, s[..|s| - 1]);
      assert s == s[..|s| - 1] + [s[|s| - 1]];
    }
  }

  lemma {:induction false} KeepAll<T(!new)>(p: T -> bool, s: seq<T>)
    ensures forall i :: 0 <= i < |Keep(p, s)| ==> p(Keep(p, s)[i])
  {
    if |s| > 0 {
      KeepAll(p, s[..|s| - 1]);
    }
  }

  lemma {:induction false} KeepNone<T(!new)>(p: T -> bool, s: seq<T>)
    requires forall i :: 0 <= i < |s| ==> !p(s[i])
    ensures Keep(p, s) == []
  {
    if |s| > 0 {
      KeepNone(p, s[..|s| - 1]);
    }
  }

  lemma {:induction false} KeepEverything<T(!new)>(p: T -> bool, s: seq<T>)
    requires forall i :: 0 <= i < |s| ==> p(s[i])
    ensures Keep(p, s) == s
  {
    if |s| > 0 {
      KeepEverything(p, s[..|s| - 1]);
    }
  }

  lemma {:induction false} KeepAgree<T(!new)>(p: T -> bool, q: T -> bool, s: seq<T>)
    requires forall i :: 0 <= i < |s| ==> (p(s[i]) <==> q(s[i]))
    ensures Keep(p, s) == Keep(q, s)
  {
    if |s| > 0 {
      KeepAgree(p, q, s[..|s| - 1]);
    }
  }

  lemma {:induction false} KeepOrder<T(!new)>(key: T -> Rank, p: T -> bool, s: seq<T>)
    requires Ordered(key, s)
    ensures Ordered(key, Keep(p, s))
  {
    if |s| > 0 {
      var init := s[..|s| - 1];
      KeepOrder(key, p, init);
      KeepMembers(p, init);
      forall x | x in Keep(p, init) ensures !Before(key(s[|s| - 1]), key(x)) {
        assert x in init;
      }
    }
  }

  /** Filtering twice is filtering once by both conditions. */
  lemma {:induction false} KeepTwice<T(!new)>(p: T -> bool, q: T -> bool, both: T -> bool, s: seq<T>)
    requires forall x :: x in s ==> (both(x) <==> p(x) && q(x))
    ensures Keep(p, Keep(q, s)) == Keep(both, s)
  {
    if |s| > 0 {
      var init, x := s[..|s| - 1], s[|s| - 1];
      KeepTwice(p, q, both, init);
      KeepAppend(p, Keep(q, init), if q(x) then [x] else []);
      KeepOne(p, x);
    }
  }

  /** Where an ordered sequence splits around `x`, insertion lands exactly there. */
  lemma {:induction false} SlotOfSplit<T(!new)>(key: T -> Rank, x: T, a: seq<T>, b: seq<T>)
    requires forall i :: 0 <= i < |a| ==> !Before(key(x), key(a[i]))
    requires forall i :: 0 <= i < |b| ==> Before(key(x), key(b[i]))
    ensures InsertBy(key, x, a + b) == a + [x] + b
  {
    assert forall i :: 0 <= i < |a| ==> (a + b)[i] == a[i];
    assert |b| > 0 ==> (a + b)[|a|] == b[0];
    assert Slot(key, x, a + b) == |a|;
  }

  /** In an ordered sequence everything from the slot on comes after `x`. */
  lemma {:induction false} BehindSlot<T(!new)>(key: T -> Rank, x: T, s: seq<T>, y: T)
    requires Ordered(key, s)
    requires y in s[Slot(key, x, s)..]
    ensures Before(key(x), key(y))
  {
  }

  lemma {:induction false} KeepAround<T(!new)>(p: T -> bool, a: seq<T>, x: T, b: seq<T>)
    ensures Keep(p, a + [x] + b) == Keep(p, a) + (if p(x) then [x] else []) + Keep(p, b)
  {
    KeepAppend(p, a + [x], b);
    KeepAppend(p, a, [x]);
    KeepOne(p, x);
  }

  /** Filtering commutes with insertion into an ordered sequence. */
  lemma {:induction false} KeepInsert<T(!new)>(key: T -> Rank, p: T -> bool, x: T, s: seq<T>)
    requires Ordered(key, s)
    ensures Keep(p, InsertBy(key, x, s)) == if p(x) then InsertBy(key, x, Keep(p, s)) else Keep(p, s)
  {
    var n := Slot(key, x, s);
    var a, b := s[..n], s[n..];
    var ka, kb := Keep(p, a), Keep(p, b);
    KeepAround(p, a, x, b);
    KeepAppend(p, a, b);
    assert s == a + b;
    if p(x) {
      forall i | 0 <= i < |ka| ensures !Before(key(x), key(ka[i])) {
        KeepMembers(p, a);
        assert ka[i] in a;
      }
      forall i | 0 <= i < |kb| ensures Before(key(x), key(kb[i])) {
        KeepMembers(p, b);
        assert kb[i] in b;
        BehindSlot(key, x, s, kb[i]);
      }
      SlotOfSplit(key, x, ka, kb);
    } else {
      assert ka + [] + kb == ka + kb;
    }
  }

  /** Filtering commutes with the stable sort. */
  lemma {:induction false} KeepSort<T(!new)>(key: T -> Rank, p: T -> bool, s: seq<T>)
    ensures Keep(p, SortBy(key, s)) == SortBy(key, Keep(p, s))
  {
    if |s| > 0 {
      var init, x := s[..|s| - 1], s[|s| - 1];
      KeepSort(key, p, init);
      SortSorts(key, init);
      KeepInsert(key, p, x, SortBy(key, init));
      if p(x) {
        var k := Keep(p, init) + [x];
        assert k[..|k| - 1] == Keep(p, init);
        assert Keep(p, s) == k;
      } else {
        assert Keep(p, s) == Keep(p, init);
      }
    }
  }

  /** The images of the elements, in the same order. */
  function Project<A, B>(f: A -> B, s: seq<A>): seq<B> {
    seq(|s|, i requires 0 <= i < |s| => f(s[i]))
  }

  function Through<A, B>(p: B -> bool, f: A -> B): A -> bool {
    (x: A) => p(f(x))
  }

  lemma {:induction false} KeepProject<A(!new), B(!new)>(p: B -> bool, f: A -> B, s: seq<A>)
    ensures Keep(p, Project(f, s)) == Project(f, Keep(Through(p, f), s))
  {
    if |s| > 0 {
      KeepProject(p, f, s[..|s| - 1]);
      assert Project(f, s)[..|s| - 1] == Project(f, s[..|s| - 1]);
    }
  }

  /** The last element that satisfies `p`: what a dictionary holds after being overwritten in order. */
  function LastOf<T(!new)>(p: T -> bool, s: seq<T>): Option<T> {
    if |s| == 0 then None
    else if p(s[|s| - 1]) then Some(s[|s| - 1])
    else LastOf(p, s[..|s| - 1])
  }

  lemma {:induction false} LastOfAppend<T(!new)>(p: T -> bool, s: seq<T>, x: T)
    ensures LastOf(p, s + [x]) == if p(x) then Some(x) else LastOf(p, s)
  {
  }

  lemma {:induction false} LastOfAgree<T(!new)>(p: T -> bool, q: T -> bool, s: seq<T>)
    requires forall i :: 0 <= i < |s| ==> (p(s[i]) <==> q(s[i]))
    ensures LastOf(p, s) == LastOf(q, s)
  {
    if |s| > 0 {
      LastOfAgree(p, q, s[..|s| - 1]);
    }
  }

  lemma {:induction false} LastOfMembers<T(!new)>(p: T -> bool, s: seq<T>)
    ensures LastOf(p, s).None? <==> forall x :: x in s ==> !p(x)
    ensures LastOf(p, s).Some? ==> LastOf(p, s).value in s && p(LastOf(p, s).value)
  {
    if |s| > 0 {
      LastOfMembers(p, s[..|s| - 1]);
      assert s == s[..|s| - 1] + [s[|s| - 1]];
    }
  }

  /** In an ordered sequence the last match is a greatest match. */
  lemma {:induction false} LastOfIsGreatest<T(!new)>(key: T -> Rank, p: T -> bool, s: seq<T>)
    requires Ordered(key, s) && LastOf(p, s).Some?
    ensures forall x :: x in s && p(x) ==> !Before(key(LastOf(p, s).value), key(x))
  {
    var init, last := s[..|s| - 1], s[|s| - 1];
    assert s == init + [last];
    if p(last) {
      forall x | x in s && p(x) ensures !Before(key(last), key(x)) { }
    } else {
      LastOfIsGreatest(key, p, init);
    }
  }

  lemma {:induction false} LastOfBoth<T(!new)>(p: T -> bool, s: seq<T>, t: seq<T>)
    ensures LastOf(p, s + t) == if LastOf(p, t).Some? then LastOf(p, t) else LastOf(p, s)
  {
    if |t| == 0 {
      assert s + t == s;
    } else {
      assert (s + t)[..|s + t| - 1] == s + t[..|t| - 1];
      LastOfBoth(p, s, t[..|t| - 1]);
    }
  }

  /** The last match among the kept elements is the last element that matches and is kept. */
  lemma {:induction false} LastOfKept<T(!new)>(p: T -> bool, q: T -> bool, both: T -> bool, s: seq<T>)
    requires forall i :: 0 <= i < |s| ==> (both(s[i]) <==> p(s[i]) && q(s[i]))
    ensures LastOf(p, Keep(q, s)) == LastOf(both, s)
  {
    if |s| > 0 {
      LastOfKept(p, q, both, s[..|s| - 1]);
      LastOfBoth(p, Keep(q, s[..|s| - 1]), if q(s[|s| - 1]) then [s[|s| - 1]] else []);
    }
  }

  /** In an ordered sequence, elements that rank lower come first. */
  lemma {:induction false} LowThenHigh<T(!new)>(key: T -> Rank, low: T -> bool, high: T -> bool, either: T -> bool, s: seq<T>)
    requires Ordered(key, s)
    requires forall x :: x in s ==> (either(x) <==> low(x) || high(x)) && !(low(x) && high(x))
    requires forall x, y :: x in s && y in s && low(x) && high(y) ==> Before(key(x), key(y))
    ensures Keep(either, s) == Keep(low, s) + Keep(high, s)
  {
    if |s| > 0 {
      var init, x := s[..|s| - 1], s[|s| - 1];
      assert s == init + [x] && x in s;
      LowThenHigh(key, low, high, either, init);
      if low(x) {
        forall i | 0 <= i < |init| ensures !high(init[i]) {
          assert init[i] in s && init[i] == s[i];
          assert !Before(key(x), key(s[i]));
        }
        KeepNone(high, init);
      }
    }
  }

  /** In an ordered sequence, a prefix that holds everything up to some rank is what filtering by that rank keeps. */
  lemma {:induction false} PrefixIsKept<T(!new)>(p: T -> bool, s: seq<T>, n: nat)
    requires n <= |s|
    requires forall i :: 0 <= i < |s| ==> (p(s[i]) <==> i < n)
    ensures Keep(p, s) == s[..n]
  {
    assert s == s[..n] + s[n..];
    KeepAppend(p, s[..n], s[n..]);
    KeepEverything(p, s[..n]);
    KeepNone(p, s[n..]);
  }
}
