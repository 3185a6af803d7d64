/** The contents of a heap as a set of processes, for heaps in which no pid occurs twice. */
module HeapContents {
  import opened Processes
  import opened Heaps

  /** What `heap_top` returns, as far as the set of queued processes determines it. */
  ghost function Least(s: set<Entry>): (e: Entry)
    requires s != {}
    ensures IsLeast(e, s)
  {
    assert exists e :: IsLeast(e, s) by {
      var e := LeastExists(s);
    }
    var e :| IsLeast(e, s);
    e
  }

  ghost function SetOf(s: seq<Entry>): set<Entry> {
    set e | e in s
  }

  /** No pid occurs twice in the heap. */
  ghost predicate Unique(s: seq<Entry>) {
    forall i, j :: 0 <= i < j < |s| ==> s[i].pid != s[j].pid
  }

  lemma UniqueIsDistinct(s: seq<Entry>)
    requires Unique(s)
    ensures DistinctPids(SetOf(s)) && PidsDiffer(multiset(s))
  {
  }

  lemma {:induction false} UniqueMeansOnce(s: seq<Entry>, e: Entry)
    requires Unique(s)
    ensures multiset(s)[e] <= 1
    decreases |s|
  {
    if s != [] {
      UniqueMeansOnce(s[1..], e);
      SplitHead(s);
      assert e == s[0] ==> e !in s[1..];
    }
  }

  lemma SameEntryTwice(s: seq<Entry>, i: nat, j: nat)
    requires i < j < |s| && s[i] == s[j]
    ensures multiset(s)[s[i]] >= 2
  {
    assert s == s[..j] + [s[j]] + s[j + 1..];
    assert s[i] in s[..j];
  }

  lemma UniqueFromContents(s: seq<Entry>)
    requires PidsDiffer(multiset(s)) && forall e :: multiset(s)[e] <= 1
    ensures Unique(s)
  {
    forall i, j | 0 <= i < j < |s| ensures s[i].pid != s[j].pid {
      assert s[i] in multiset(s) && s[j] in multiset(s);
      if s[i] == s[j] {
        SameEntryTwice(s, i, j);
      }
    }
  }

  lemma SetAfterInsert(s: seq<Entry>, t: seq<Entry>, e: Entry)
    requires multiset(t) == multiset(s) + multiset{e} && Unique(s)
    requires forall x :: x in s ==> x.pid != e.pid
    ensures SetOf(t) == SetOf(s) + {e} && Unique(t)
  {
    assert s + [e] == s + [e] && multiset(s + [e]) == multiset(t);
    SameContents(s + [e], t);
  }

  lemma SetAfterRemove(s: seq<Entry>, t: seq<Entry>, e: Entry)
    requires e in s && multiset(t) == multiset(s) - multiset{e} && Unique(s)
    ensures SetOf(t) == SetOf(s) - {e} && Unique(t)
  {
    var i :| 0 <= i < |s| && s[i] == e;
    WithoutAt(s, i);
    SameContents(s[..i] + s[i + 1..], t);
    SetWithoutAt(s, i);
  }

  lemma SetWithoutAt(s: seq<Entry>, i: nat)
    requires i < |s| && Unique(s)
    ensures SetOf(s[..i] + s[i + 1..]) == SetOf(s) - {s[i]}
    ensures Unique(s[..i] + s[i + 1..])
  {
    var rest := s[..i] + s[i + 1..];
    forall j | 0 <= j < |s| && j != i ensures s[j] in rest && s[j] != s[i] {
      assert j < i ==> rest[j] == s[j];
      assert i < j ==> rest[j - 1] == s[j];
    }
    forall j | 0 <= j < |rest| ensures rest[j] in SetOf(s) && rest[j] != s[i] {
      assert rest[j] == if j < i then s[j] else s[j + 1];
    }
  }

  lemma SameContents(s: seq<Entry>, t: seq<Entry>)
    requires multiset(s) == multiset(t)
    ensures SetOf(s) == SetOf(t)
    ensures Unique(s) ==> Unique(t)
  {
    forall x ensures x in s <==> x in t {
      assert x in s <==> x in multiset(s);
      assert x in t <==> x in multiset(t);
    }
    if Unique(s) {
      UniqueIsDistinct(s);
      forall e ensures multiset(t)[e] <= 1 {
        UniqueMeansOnce(s, e);
      }
      UniqueFromContents(t);
    }
  }

  lemma SameSetSameContents(s: seq<Entry>, t: seq<Entry>)
    requires SetOf(s) == SetOf(t) && Unique(s) && Unique(t)
    ensures multiset(s) == multiset(t)
  {
    forall e ensures multiset(s)[e] == multiset(t)[e] {
      UniqueMeansOnce(s, e);
      UniqueMeansOnce(t, e);
      assert e in s <==> e in SetOf(s);
      assert e in t <==> e in SetOf(t);
      assert e in s <==> e in multiset(s);
      assert e in t <==> e in multiset(t);
    }
  }

  lemma RootIsTheLeast(s: seq<Entry>)
    requires IsHeap(s) && s != [] && Unique(s)
    ensures SetOf(s) != {} && s[0] == Least(SetOf(s))
  {
    assert s[0] in SetOf(s);
    forall x | x in SetOf(s) ensures AtMost(s[0], x) {
      PopRemovesLeast(s);
    }
    UniqueIsDistinct(s);
    LeastIsUnique(s[0], Least(SetOf(s)), SetOf(s));
  }

  lemma WithoutAt(t: seq<Entry>, j: nat)
    requires j < |t|
    ensures multiset(t[..j] + t[j + 1..]) == multiset(t) - multiset{t[j]}
  {
    assert t == t[..j] + [t[j]] + t[j + 1..];
  }

  lemma SetAfterLowering(s: seq<Entry>, e: Entry)
    requires s != [] && Unique(s) && e.pid == s[0].pid
    ensures SetOf(s[0 := e]) == SetOf(s) - {s[0]} + {e} && Unique(s[0 := e])
  {
    forall i | 0 < i < |s| ensures s[0 := e][i] == s[i] && s[i] != s[0] {
    }
    assert s[0 := e][0] == e;
  }

  lemma {:induction false} SetIsAsLarge(s: seq<Entry>)
    requires Unique(s)
    ensures |SetOf(s)| == |s|
  {
    if s != [] {
      var init, e := s[..|s| - 1], s[|s| - 1];
      SetIsAsLarge(init);
      assert SetOf(s) == SetOf(init) + {e};
      assert e !in SetOf(init);
    }
  }
}
