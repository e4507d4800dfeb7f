/** Sequence helpers shared by the linear searches and removals of the game package. */
module Lists {

  /** The index of the first element equal to `e`, or -1 when there is none. */
  function IndexOf<T(==)>(s: seq<T>, e: T): (r: int)
    ensures -1 <= r < |s|
    ensures r == -1 <==> e !in s
    ensures 0 <= r ==> s[r] == e && e !in s[..r]
  {
    if |s| == 0 then -1
    else if s[0] == e then 0
    else
      var k := IndexOf(s[1..], e);
      assert s[1..][..if k < 0 then 0 else k] == s[1..1 + if k < 0 then 0 else k];
      if k == -1 then -1 else k + 1
  }

  /** `s` without the first occurrence of `e` (unchanged when `e` is absent). */
  function RemoveFirst<T(==)>(s: seq<T>, e: T): (r: seq<T>)
  {
    var i := IndexOf(s, e);
    if i == -1 then s else s[..i] + s[i + 1..]
  }

  lemma RemoveFirstFacts<T>(s: seq<T>, e: T)
    ensures e !in s ==> RemoveFirst(s, e) == s
    ensures e in s ==> |RemoveFirst(s, e)| == |s| - 1
    ensures multiset(RemoveFirst(s, e)) == multiset(s) - multiset{e}
    ensures Subseq(RemoveFirst(s, e), s)
  {
    var i := IndexOf(s, e);
    if i == -1 {
      SubseqRefl(s);
    } else {
      RemoveAtFacts(s, i);
    }
  }

  /** Deleting the element at `i`. */
  lemma RemoveAtFacts<T>(s: seq<T>, i: nat)
    requires i < |s|
    ensures |s[..i] + s[i + 1..]| == |s| - 1
    ensures multiset(s[..i] + s[i + 1..]) == multiset(s) - multiset{s[i]}
    ensures Subseq(s[..i] + s[i + 1..], s)
  {
    assert s == s[..i] + [s[i]] + s[i + 1..];
    assert multiset(s) == multiset(s[..i]) + multiset{s[i]} + multiset(s[i + 1..]);
    DropOneIsSubseq(s, i);
  }

  /** No element occurs twice. */
  predicate NoDup<T(==)>(s: seq<T>)
  {
    forall i, j :: 0 <= i < j < |s| ==> s[i] != s[j]
  }

  /** `s` is obtained from `t` by deleting elements, keeping the order of the rest. */
  predicate Subseq<T(==)>(s: seq<T>, t: seq<T>)
    decreases |t|
  {
    if s == [] then true
    else if t == [] then false
    else if s[0] == t[0] then Subseq(s[1..], t[1..])
    else Subseq(s, t[1..])
  }

  lemma {:induction false} SubseqRefl<T>(s: seq<T>)
    ensures Subseq(s, s)
    decreases |s|
  {
    if s != [] {
      SubseqRefl(s[1..]);
    }
  }

  lemma {:induction false} SubseqElements<T>(s: seq<T>, t: seq<T>)
    requires Subseq(s, t)
    ensures forall x :: x in s ==> x in t
    ensures |s| <= |t|
    decreases |t|
  {
    if s != [] && t != [] {
      if s[0] == t[0] {
        SubseqElements(s[1..], t[1..]);
        assert s == [s[0]] + s[1..];
        assert t == [t[0]] + t[1..];
      } else {
        SubseqElements(s, t[1..]);
        assert t == [t[0]] + t[1..];
      }
    }
  }

  lemma {:induction false} SubseqTrans<T>(a: seq<T>, b: seq<T>, c: seq<T>)
    requires Subseq(a, b) && Subseq(b, c)
    ensures Subseq(a, c)
    decreases |c|
  {
    if a != [] {
      assert b != [] && c != [];
      if b[0] == c[0] {
        if a[0] == b[0] {
          SubseqTrans(a[1..], b[1..], c[1..]);
        } else {
          SubseqTrans(a, b[1..], c[1..]);
        }
      } else {
        SubseqTrans(a, b, c[1..]);
        SubseqStep(a, c);
      }
    }
  }

  lemma {:induction false} DropOneIsSubseq<T>(s: seq<T>, i: nat)
    requires i < |s|
    ensures Subseq(s[..i] + s[i + 1..], s)
    decreases i
  {
    if i == 0 {
      assert s[..0] + s[1..] == s[1..];
      SubseqRefl(s[1..]);
      SubseqStep(s[1..], s);
    } else {
      DropOneIsSubseq(s[1..], i - 1);
      assert (s[..i] + s[i + 1..])[1..] == s[1..][..i - 1] + s[1..][i..];
    }
  }

  /** Dropping the head of the larger sequence keeps a subsequence a subsequence. */
  lemma {:induction false} SubseqStep<T>(s: seq<T>, t: seq<T>)
    requires t != [] && Subseq(s, t[1..])
    ensures Subseq(s, t)
    decreases |t|, 0
  {
    if s != [] && s[0] == t[0] {
      SubseqTail(s, t[1..]);
    }
  }

  lemma {:induction false} SubseqTail<T>(s: seq<T>, t: seq<T>)
    requires s != [] && Subseq(s, t)
    ensures Subseq(s[1..], t)
    decreases |t|, 1
  {
    assert t != [];
    if s[0] != t[0] {
      SubseqTail(s, t[1..]);
    }
    SubseqStep(s[1..], t);
  }

  /** Removing the first occurrence from a list without duplicates removes
      every occurrence and nothing else. */
  lemma RemoveFirstNoDup<T>(s: seq<T>, e: T)
    requires NoDup(s)
    ensures NoDup(RemoveFirst(s, e))
    ensures forall x :: x in RemoveFirst(s, e) <==> x in s && x != e
  {
    var i := IndexOf(s, e);
    if i != -1 {
      var r := s[..i] + s[i + 1..];
      assert forall k :: 0 <= k < |r| ==> r[k] == if k < i then s[k] else s[k + 1];
      forall x | x in s && x != e
        ensures x in r
      {
        var k :| 0 <= k < |s| && s[k] == x;
        if k < i {
          assert r[k] == x;
        } else {
          assert r[k - 1] == x;
        }
      }
    }
  }

  /** `s` after removing the first occurrence of each of `ts`, in order. */
  function RemoveEach<T(==)>(s: seq<T>, ts: seq<T>): (r: seq<T>)
    decreases |ts|
  {
    if ts == [] then s else RemoveEach(RemoveFirst(s, ts[0]), ts[1..])
  }

  /** RemoveEach only deletes, and on a list without duplicates it deletes
      exactly the listed elements. */
  lemma {:induction false} RemoveEachFacts<T>(s: seq<T>, ts: seq<T>)
    ensures Subseq(RemoveEach(s, ts), s)
    ensures NoDup(s) ==> NoDup(RemoveEach(s, ts))
    ensures NoDup(s) ==> forall x :: x in RemoveEach(s, ts) <==> x in s && x !in ts
    decreases |ts|
  {
    if ts == [] {
      SubseqRefl(s);
    } else {
      var s' := RemoveFirst(s, ts[0]);
      RemoveFirstFacts(s, ts[0]);
      RemoveEachFacts(s', ts[1..]);
      SubseqTrans(RemoveEach(s', ts[1..]), s', s);
      if NoDup(s) {
        RemoveFirstNoDup(s, ts[0]);
        assert forall x :: x in ts <==> x == ts[0] || x in ts[1..] by {
          assert ts == [ts[0]] + ts[1..];
        }
      }
    }
  }

  /** Membership after a run of removals, one element at a time. */
  lemma RemoveEachMember<T>(s: seq<T>, ts: seq<T>, x: T)
    requires NoDup(s)
    ensures x in RemoveEach(s, ts) <==> x in s && x !in ts
  {
    RemoveEachFacts(s, ts);
  }

  /** A subsequence of a list without duplicates has none either. */
  lemma {:induction false} SubseqNoDup<T>(s: seq<T>, t: seq<T>)
    requires Subseq(s, t) && NoDup(t)
    ensures NoDup(s)
    decreases |t|
  {
    if s != [] {
      assert t != [];
      assert NoDup(t[1..]);
      if s[0] == t[0] {
        SubseqNoDup(s[1..], t[1..]);
        SubseqElements(s[1..], t[1..]);
        assert t[0] !in t[1..];
        forall i, j | 0 <= i < j < |s|
          ensures s[i] != s[j]
        {
          if i == 0 {
            assert s[j] == s[1..][j - 1];
          } else {
            assert s[i] == s[1..][i - 1] && s[j] == s[1..][j - 1];
          }
        }
      } else {
        SubseqNoDup(s, t[1..]);
      }
    }
  }

  /** Two lists without duplicates and without a common element concatenate
      to one without duplicates. */
  lemma NoDupConcat<T>(s: seq<T>, t: seq<T>)
    requires NoDup(s) && NoDup(t)
    requires forall x :: x in s ==> x !in t
    ensures NoDup(s + t)
  {
    forall i, j | 0 <= i < j < |s + t|
      ensures (s + t)[i] != (s + t)[j]
    {
      if i < |s| && j >= |s| {
        assert (s + t)[i] in s && (s + t)[j] in t;
      }
    }
  }

  /** Removing more from a subsequence leaves a subsequence. */
  lemma RemoveEachKeepsSubseq<T>(s: seq<T>, ts: seq<T>, t: seq<T>)
    requires Subseq(s, t)
    ensures Subseq(RemoveEach(s, ts), t)
  {
    RemoveEachFacts(s, ts);
    SubseqTrans(RemoveEach(s, ts), s, t);
  }

  /** An index holding `e` with no earlier `e` is the one IndexOf finds. */
  lemma {:induction false} IndexOfUnique<T>(s: seq<T>, e: T, i: nat)
    requires i < |s| && s[i] == e && e !in s[..i]
    ensures IndexOf(s, e) == i
  {
    if i > 0 {
      assert s[0] in s[..i];
      assert s[1..][..i - 1] == s[..i][1..];
      IndexOfUnique(s[1..], e, i - 1);
    }
  }
}

