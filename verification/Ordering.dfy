// Python's order on strings and tuples of strings, and a stable sort by key.

module Ordering {

  predicate TextLe(a: string, b: string) {
    a == [] || (b != [] && (a[0] < b[0] || (a[0] == b[0] && TextLe(a[1..], b[1..]))))
  }

  lemma {:induction false} TextTotal(a: string, b: string)
    ensures TextLe(a, b) || TextLe(b, a)
    ensures TextLe(a, b) && TextLe(b, a) ==> a == b
  {
    if a != [] && b != [] && a[0] == b[0] {
      TextTotal(a[1..], b[1..]);
      assert a == [a[0]] + a[1..] && b == [b[0]] + b[1..];
    }
  }

  lemma {:induction false} TextTransitive(a: string, b: string, c: string)
    requires TextLe(a, b) && TextLe(b, c)
    ensures TextLe(a, c)
  {
    if a != [] && a[0] == b[0] && b[0] == c[0] {
      TextTransitive(a[1..], b[1..], c[1..]);
    }
  }

  /** A sort key: tuples of one length, compared field by field. */
  type SortKey = seq<string>

  predicate KeyLe(a: SortKey, b: SortKey) {
    a == [] || (b != [] && if a[0] == b[0] then KeyLe(a[1..], b[1..]) else TextLe(a[0], b[0]))
  }

  lemma {:induction false} KeyTotal(a: SortKey, b: SortKey)
    ensures KeyLe(a, b) || KeyLe(b, a)
    ensures KeyLe(a, b) && KeyLe(b, a) ==> a == b
  {
    if a != [] && b != [] {
      TextTotal(a[0], b[0]);
      if a[0] == b[0] {
        KeyTotal(a[1..], b[1..]);
        assert a == [a[0]] + a[1..] && b == [b[0]] + b[1..];
      }
    }
  }

  lemma {:induction false} KeyTransitive(a: SortKey, b: SortKey, c: SortKey)
    requires KeyLe(a, b) && KeyLe(b, c)
    ensures KeyLe(a, c)
  {
    if a != [] {
      if a[0] == b[0] && b[0] == c[0] {
        KeyTransitive(a[1..], b[1..], c[1..]);
      } else if a[0] != b[0] && b[0] != c[0] {
        TextTransitive(a[0], b[0], c[0]);
        TextTotal(a[0], b[0]);
      }
    }
  }

  // ---- sequences -----------------------------------------------------------

  function Map<S, T>(f: S -> T, s: seq<S>): (r: seq<T>)
    ensures |r| == |s| && forall i | 0 <= i < |s| :: r[i] == f(s[i])
  {
    seq(|s|, i requires 0 <= i < |s| => f(s[i]))
  }

  function Without<T>(s: seq<T>, i: nat): seq<T>
    requires i < |s|
  {
    s[..i] + s[i + 1..]
  }

  lemma WithoutKeepsTheRest<T>(s: seq<T>, i: nat)
    requires i < |s|
    ensures multiset(Without(s, i)) == multiset(s) - multiset{s[i]}
  {
    assert s == s[..i] + [s[i]] + s[i + 1..];
  }

  lemma {:induction false} MapKeepsMultiset<S, T>(f: S -> T, s: seq<S>, t: seq<S>)
    requires multiset(s) == multiset(t)
    ensures multiset(Map(f, s)) == multiset(Map(f, t))
    decreases |s|
  {
    if s == [] {
      assert |t| == |multiset(t)| == 0;
      assert Map(f, s) == Map(f, t);
    } else {
      assert s[0] in multiset(t);
      var i :| 0 <= i < |t| && t[i] == s[0];
      WithoutKeepsTheRest(s, 0);
      WithoutKeepsTheRest(t, i);
      MapKeepsMultiset(f, Without(s, 0), Without(t, i));
      MapWithout(f, s, 0);
      MapWithout(f, t, i);
    }
  }

  lemma MapWithout<S, T>(f: S -> T, s: seq<S>, i: nat)
    requires i < |s|
    ensures multiset(Map(f, s)) == multiset(Map(f, Without(s, i))) + multiset{f(s[i])}
  {
    assert Map(f, Without(s, i)) == Without(Map(f, s), i);
    WithoutKeepsTheRest(Map(f, s), i);
    assert f(s[i]) == Map(f, s)[i];
  }

  // ---- the stable sort -------------------------------------------------------

  ghost predicate SortedBy<T(!new)>(key: T -> SortKey, s: seq<T>) {
    forall i, j | 0 <= i < j < |s| :: KeyLe(key(s[i]), key(s[j]))
  }

  function Insert<T>(key: T -> SortKey, x: T, s: seq<T>): (r: seq<T>)
    ensures multiset(r) == multiset(s) + multiset{x}
  {
    if s == [] || KeyLe(key(x), key(s[0])) then [x] + s
    else
      assert s == [s[0]] + s[1..];
      [s[0]] + Insert(key, x, s[1..])
  }

  function Sort<T>(key: T -> SortKey, s: seq<T>): (r: seq<T>)
    ensures multiset(r) == multiset(s)
  {
    if s == [] then []
    else
      assert s == [s[0]] + s[1..];
      Insert(key, s[0], Sort(key, s[1..]))
  }

  lemma {:induction false} InsertSorts<T(!new)>(key: T -> SortKey, x: T, s: seq<T>)
    requires SortedBy(key, s)
    ensures SortedBy(key, Insert(key, x, s))
  {
    if s != [] {
      KeyTotal(key(x), key(s[0]));
      if KeyLe(key(x), key(s[0])) {
        forall j | 0 <= j < |s| ensures KeyLe(key(x), key(s[j])) {
          KeyTotal(key(s[0]), key(s[0]));
          KeyTransitive(key(x), key(s[0]), key(s[j]));
        }
      } else {
        InsertSorts(key, x, s[1..]);
        var rest := Insert(key, x, s[1..]);
        forall j | 0 <= j < |rest| ensures KeyLe(key(s[0]), key(rest[j])) {
          assert rest[j] in multiset(rest);
          if rest[j] != x {
            assert rest[j] in s[1..];
          }
        }
      }
    }
  }

  lemma {:induction false} SortSorts<T(!new)>(key: T -> SortKey, s: seq<T>)
    ensures SortedBy(key, Sort(key, s))
  {
    if s != [] {
      SortSorts(key, s[1..]);
      InsertSorts(key, s[0], Sort(key, s[1..]));
    }
  }

  /** The elements with one key, in order. */
  function Group<T>(key: T -> SortKey, k: SortKey, s: seq<T>): seq<T> {
    if s == [] then []
    else (if key(s[0]) == k then [s[0]] else []) + Group(key, k, s[1..])
  }

  lemma {:induction false} GroupAppend<T>(key: T -> SortKey, k: SortKey, s: seq<T>, t: seq<T>)
    ensures Group(key, k, s + t) == Group(key, k, s) + Group(key, k, t)
  {
    if s == [] {
      assert s + t == t;
    } else {
      var first, rest := if key(s[0]) == k then [s[0]] else [], Group(key, k, s[1..]);
      GroupAppend(key, k, s[1..], t);
      assert (s + t)[0] == s[0] && (s + t)[1..] == s[1..] + t;
      assert Group(key, k, s + t) == first + (rest + Group(key, k, t));
      assert first + (rest + Group(key, k, t)) == (first + rest) + Group(key, k, t);
    }
  }

  lemma GroupSplits<T>(key: T -> SortKey, k: SortKey, s: seq<T>)
    requires s != []
    ensures Group(key, k, s) == Group(key, k, [s[0]]) + Group(key, k, s[1..])
  {
    GroupAppend(key, k, [s[0]], s[1..]);
    assert s == [s[0]] + s[1..];
  }

  lemma GroupOne<T>(key: T -> SortKey, k: SortKey, x: T)
    ensures Group(key, k, [x]) == if key(x) == k then [x] else []
  {
    assert [x][1..] == [];
  }

  lemma EmptyIsNeutral<T>(s: seq<T>)
    ensures [] + s == s && s + [] == s
  {
  }

  lemma {:induction false} InsertIsStable<T>(key: T -> SortKey, k: SortKey, x: T, s: seq<T>)
    ensures Group(key, k, Insert(key, x, s)) == Group(key, k, [x]) + Group(key, k, s)
  {
    if s == [] || KeyLe(key(x), key(s[0])) {
      GroupAppend(key, k, [x], s);
    } else {
      KeyTotal(key(x), key(s[0]));
      InsertIsStable(key, k, x, s[1..]);
      GroupAppend(key, k, [s[0]], Insert(key, x, s[1..]));
      GroupSplits(key, k, s);
      GroupOne(key, k, x);
      GroupOne(key, k, s[0]);
      if key(x) == k {
        EmptyIsNeutral(Group(key, k, Insert(key, x, s[1..])));
        EmptyIsNeutral(Group(key, k, s[1..]));
      } else {
        EmptyIsNeutral(Group(key, k, s[1..]));
        EmptyIsNeutral(Group(key, k, s));
      }
    }
  }

  lemma {:induction false} SortIsStable<T>(key: T -> SortKey, k: SortKey, s: seq<T>)
    ensures Group(key, k, Sort(key, s)) == Group(key, k, s)
  {
    if s != [] {
      SortIsStable(key, k, s[1..]);
      InsertIsStable(key, k, s[0], Sort(key, s[1..]));
      GroupSplits(key, k, s);
    }
  }

  // ---- permutations ------------------------------------------------------------

  ghost predicate Ascending(keys: seq<SortKey>) {
    forall i, j | 0 <= i < j < |keys| :: KeyLe(keys[i], keys[j])
  }

  lemma {:induction false} AscendingIsUnique(a: seq<SortKey>, b: seq<SortKey>)
    requires Ascending(a) && Ascending(b) && multiset(a) == multiset(b)
    ensures a == b
    decreases |a|
  {
    assert |a| == |multiset(a)| == |multiset(b)| == |b|;
    if a != [] {
      SameHead(a, b);
      SameRest(a, b);
      AscendingIsUnique(a[1..], b[1..]);
      assert a == [a[0]] + a[1..] && b == [b[0]] + b[1..];
    }
  }

  lemma SameHead(a: seq<SortKey>, b: seq<SortKey>)
    requires Ascending(a) && Ascending(b) && a != [] && b != [] && multiset(a) == multiset(b)
    ensures a[0] == b[0]
  {
    LeastComesFirst(a, b);
    LeastComesFirst(b, a);
    KeyTotal(a[0], b[0]);
  }

  lemma SameRest(a: seq<SortKey>, b: seq<SortKey>)
    requires a != [] && b != [] && a[0] == b[0] && multiset(a) == multiset(b)
    ensures multiset(a[1..]) == multiset(b[1..])
  {
    WithoutKeepsTheRest(a, 0);
    WithoutKeepsTheRest(b, 0);
    assert Without(a, 0) == a[1..] && Without(b, 0) == b[1..];
  }

  lemma LeastComesFirst(a: seq<SortKey>, b: seq<SortKey>)
    requires Ascending(a) && a != [] && b != [] && multiset(a) == multiset(b)
    ensures KeyLe(a[0], b[0])
  {
    assert b[0] in multiset(a);
    var j :| 0 <= j < |a| && a[j] == b[0];
    KeyTotal(a[0], a[0]);
  }

  lemma SortedKeysAgree<T(!new)>(key: T -> SortKey, s: seq<T>, t: seq<T>)
    requires multiset(s) == multiset(t)
    ensures Map(key, Sort(key, s)) == Map(key, Sort(key, t))
  {
    SortSorts(key, s);
    SortSorts(key, t);
    MapKeepsMultiset(key, Sort(key, s), Sort(key, t));
    AscendingIsUnique(Map(key, Sort(key, s)), Map(key, Sort(key, t)));
  }

  /** Elements with equal keys look alike through `view`. */
  ghost predicate TiesLookAlike<T(!new), V>(key: T -> SortKey, view: T -> V, s: seq<T>) {
    forall x, y | x in s && y in s && key(x) == key(y) :: view(x) == view(y)
  }

  lemma SortedViewsAgree<T(!new), V>(key: T -> SortKey, view: T -> V, s: seq<T>, t: seq<T>)
    requires multiset(s) == multiset(t) && TiesLookAlike(key, view, s)
    ensures Map(view, Sort(key, s)) == Map(view, Sort(key, t))
  {
    var a, b := Sort(key, s), Sort(key, t);
    SortedKeysAgree(key, s, t);
    assert |a| == |Map(key, a)| == |b|;
    forall i | 0 <= i < |a| ensures view(a[i]) == view(b[i]) {
      assert key(a[i]) == Map(key, a)[i] == Map(key, b)[i] == key(b[i]);
      assert a[i] in multiset(a) && b[i] in multiset(b);
      assert a[i] in s && b[i] in s;
    }
  }

  /** `s` with two elements exchanged. */
  function Exchange<T>(s: seq<T>, i: nat, j: nat): seq<T>
    requires i < j < |s|
  {
    s[i := s[j]][j := s[i]]
  }

  lemma ExchangeKeepsMultiset<T>(s: seq<T>, i: nat, j: nat)
    requires i < j < |s|
    ensures multiset(Exchange(s, i, j)) == multiset(s)
  {
  }

  /** Exchanging a tie that does not look alike changes what the sorted sequence looks like. */
  lemma ExchangedTieShows<T(!new), V>(key: T -> SortKey, view: T -> V, s: seq<T>, i: nat, j: nat)
    requires i < j < |s| && key(s[i]) == key(s[j]) && view(s[i]) != view(s[j])
    ensures Map(view, Sort(key, s)) != Map(view, Sort(key, Exchange(s, i, j)))
  {
    var k, t := key(s[i]), Exchange(s, i, j);
    ExchangeKeepsMultiset(s, i, j);
    SortedKeysAgree(key, s, t);
    SortIsStable(key, k, s);
    SortIsStable(key, k, t);
    GroupAt(key, s, i);
    GroupAt(key, t, i);
    assert t[..i] == s[..i];
    var n := |Group(key, k, s[..i])|;
    assert Map(view, Group(key, k, s))[n] != Map(view, Group(key, k, t))[n];
    if Map(view, Sort(key, s)) == Map(view, Sort(key, t)) {
      ViewsOfGroupsAgree(key, view, k, Sort(key, s), Sort(key, t));
      assert false;
    }
  }

  lemma GroupAt<T>(key: T -> SortKey, s: seq<T>, i: nat)
    requires i < |s|
    ensures var n := |Group(key, key(s[i]), s[..i])|;
      n < |Group(key, key(s[i]), s)| && Group(key, key(s[i]), s)[n] == s[i]
  {
    var k := key(s[i]);
    assert s == s[..i] + s[i..];
    GroupAppend(key, k, s[..i], s[i..]);
  }

  lemma {:induction false} ViewsOfGroupsAgree<T, V>(key: T -> SortKey, view: T -> V, k: SortKey, s: seq<T>, t: seq<T>)
    requires Map(key, s) == Map(key, t) && Map(view, s) == Map(view, t)
    ensures Map(view, Group(key, k, s)) == Map(view, Group(key, k, t))
  {
    assert |s| == |Map(key, s)| == |t|;
    if s != [] {
      assert key(s[0]) == Map(key, s)[0] == Map(key, t)[0] == key(t[0]);
      assert view(s[0]) == Map(view, s)[0] == Map(view, t)[0] == view(t[0]);
      assert Map(key, s[1..]) == Map(key, s)[1..] == Map(key, t[1..]);
      assert Map(view, s[1..]) == Map(view, s)[1..] == Map(view, t[1..]);
      ViewsOfGroupsAgree(key, view, k, s[1..], t[1..]);
    }
  }
}
