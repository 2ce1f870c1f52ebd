/** Array.prototype.sort with a comparator: a stable sort, and when its result is unique. */
module Sorting {

  ghost predicate TotalPreorder<T(!new)>(le: (T, T) -> bool) {
    && (forall x, y :: le(x, y) || le(y, x))
    && (forall x, y, z :: le(x, y) && le(y, z) ==> le(x, z))
  }

  ghost predicate Reflexive<T(!new)>(le: (T, T) -> bool) {
    forall x :: le(x, x)
  }

  ghost predicate Sorted<T>(le: (T, T) -> bool, s: seq<T>) {
    forall i, j :: 0 <= i < j < |s| ==> le(s[i], s[j])
  }

  /** Places x before the first element that does not sort strictly ahead of it. */
  function Insert<T>(le: (T, T) -> bool, x: T, s: seq<T>): seq<T> {
    if s == [] || le(x, s[0]) then [x] + s else [s[0]] + Insert(le, x, s[1..])
  }

  function Sort<T>(le: (T, T) -> bool, s: seq<T>): seq<T> {
    if s == [] then [] else Insert(le, s[0], Sort(le, s[1..]))
  }

  lemma {:induction false} InsertMultiset<T>(le: (T, T) -> bool, x: T, s: seq<T>)
    ensures multiset(Insert(le, x, s)) == multiset([x] + s)
  {
    if s != [] && !le(x, s[0]) {
      InsertMultiset(le, x, s[1..]);
      assert s == [s[0]] + s[1..];
    }
  }

  lemma {:induction false} SortMultiset<T>(le: (T, T) -> bool, s: seq<T>)
    ensures multiset(Sort(le, s)) == multiset(s)
    ensures |Sort(le, s)| == |s|
    ensures forall i :: 0 <= i < |s| ==> Sort(le, s)[i] in s
  {
    if s != [] {
      SortMultiset(le, s[1..]);
      InsertMultiset(le, s[0], Sort(le, s[1..]));
      assert s == [s[0]] + s[1..];
    }
    assert |Sort(le, s)| == |multiset(Sort(le, s))|;
    forall i | 0 <= i < |s| ensures Sort(le, s)[i] in s {
      assert Sort(le, s)[i] in multiset(Sort(le, s));
    }
  }

  lemma {:induction false} InsertSorted<T(!new)>(le: (T, T) -> bool, x: T, s: seq<T>)
    requires TotalPreorder(le) && Sorted(le, s)
    ensures Sorted(le, Insert(le, x, s))
  {
    if s != [] {
      if le(x, s[0]) {
        assert forall y :: y in s ==> le(x, y);
      } else {
        InsertSorted(le, x, s[1..]);
        InsertMultiset(le, x, s[1..]);
        var rest := Insert(le, x, s[1..]);
        forall i | 0 <= i < |rest| ensures le(s[0], rest[i]) {
          assert rest[i] in multiset(rest);
          assert rest[i] in [x] + s[1..];
        }
      }
    }
  }

  lemma {:induction false} SortSorted<T(!new)>(le: (T, T) -> bool, s: seq<T>)
    requires TotalPreorder(le)
    ensures Sorted(le, Sort(le, s))
  {
    if s != [] {
      SortSorted(le, s[1..]);
      InsertSorted(le, s[0], Sort(le, s[1..]));
    }
  }

  /** No two different elements of the contents tie. */
  ghost predicate NoTies<T(!new)>(le: (T, T) -> bool, contents: multiset<T>) {
    forall x, y :: x in contents && y in contents && le(x, y) && le(y, x) ==> x == y
  }

  lemma Rest<T(!new)>(le: (T, T) -> bool, s: seq<T>)
    requires s != [] && Sorted(le, s) && NoTies(le, multiset(s))
    ensures Sorted(le, s[1..]) && NoTies(le, multiset(s[1..]))
    ensures multiset(s[1..]) == multiset(s) - multiset{s[0]}
  {
    assert s == [s[0]] + s[1..];
  }

  lemma SameLength<T>(s: seq<T>, t: seq<T>)
    requires multiset(s) == multiset(t)
    ensures |s| == |t|
  {
    assert |s| == |multiset(s)| == |t|;
  }

  lemma FromParts<T>(s: seq<T>, t: seq<T>)
    requires s != [] && t != [] && s[0] == t[0] && s[1..] == t[1..]
    ensures s == t
  {
    assert s == [s[0]] + s[1..] && t == [t[0]] + t[1..];
  }

  /** The only sorted arrangement: where no two different elements tie, equal contents sort to equal sequences. */
  lemma {:induction false} SortedUnique<T(!new)>(le: (T, T) -> bool, s: seq<T>, t: seq<T>)
    requires Reflexive(le) && Sorted(le, s) && Sorted(le, t)
    requires multiset(s) == multiset(t) && NoTies(le, multiset(s))
    ensures s == t
  {
    SameLength(s, t);
    if s != [] {
      Rest(le, s);
      Rest(le, t);
      SortedUnique(le, s[1..], t[1..]);
      FromParts(s, t);
    }
  }

  /** Where no two different elements tie, the sorted result does not depend on the input order. */
  lemma SortOrderIndependent<T(!new)>(le: (T, T) -> bool, s: seq<T>, t: seq<T>)
    requires TotalPreorder(le)
    requires multiset(s) == multiset(t) && NoTies(le, multiset(s))
    ensures Sort(le, s) == Sort(le, t)
  {
    SortSorted(le, s);
    SortSorted(le, t);
    SortMultiset(le, s);
    SortMultiset(le, t);
    assert Reflexive(le);
    SortedUnique(le, Sort(le, s), Sort(le, t));
  }

  lemma {:induction false} InsertBeforeLater<T>(le: (T, T) -> bool, x: T, s: seq<T>, t: seq<T>)
    requires t != [] ==> le(x, t[0])
    ensures Insert(le, x, s + t) == Insert(le, x, s) + t
  {
    if s == [] {
      assert s + t == t;
    } else if !le(x, s[0]) {
      InsertBeforeLater(le, x, s[1..], t);
      assert (s + t)[1..] == s[1..] + t;
    }
  }

  /** Elements that sort later are sorted by themselves and put behind. */
  lemma {:induction false} SortAppendLater<T>(le: (T, T) -> bool, s: seq<T>, t: seq<T>)
    requires forall i, j :: 0 <= i < |s| && 0 <= j < |t| ==> le(s[i], t[j])
    ensures Sort(le, s + t) == Sort(le, s) + Sort(le, t)
  {
    if s == [] {
      assert s + t == t;
    } else {
      SortAppendLater(le, s[1..], t);
      assert (s + t)[1..] == s[1..] + t;
      assert Sort(le, t) != [] ==> le(s[0], Sort(le, t)[0]) by {
        SortMultiset(le, t);
        if Sort(le, t) != [] {
          assert Sort(le, t)[0] in t;
        }
      }
      InsertBeforeLater(le, s[0], Sort(le, s[1..]), Sort(le, t));
    }
  }
}
