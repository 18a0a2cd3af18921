/** The dedup gate: the `checked` map guarded by `checkedLock` in `worker`
    and `workerFromSlice` (main.go:217-223, 235-241). Every call holds the
    lock for its whole test-and-insert, so calls are linearisable and a
    sequential model over a growing set is faithful. */
module DedupGate {

  /** The verdict of one test-and-set and the seen set after it. */
  datatype Admission = Admission(admitted: bool, seen: set<string>)

  /** One locked section: admit `name` iff it was not seen before; either
      way it is seen afterwards and nothing else is added. */
  function TestAndSet(seen: set<string>, name: string): (r: Admission)
    ensures r.admitted <==> name !in seen
    ensures r.seen == seen + {name}
    ensures !r.admitted ==> r.seen == seen
  {
    if name in seen then Admission(false, seen) else Admission(true, seen + {name})
  }

  /** The outcome of pushing a list of names through the gate in order. */
  datatype Drained = Drained(admitted: seq<string>, seen: set<string>)

  /** Names pass through the gate one after another; `admitted` lists the
      names handed on to the prober, in the order they were admitted. */
  function Drain(seen: set<string>, names: seq<string>): (r: Drained)
    ensures r.seen == seen + (set x | x in names)
    decreases names
  {
    if names == [] then Drained([], seen)
    else
      var a := TestAndSet(seen, names[0]);
      var rest := Drain(a.seen, names[1..]);
      assert names == [names[0]] + names[1..];
      Drained(if a.admitted then [names[0]] + rest.admitted else rest.admitted, rest.seen)
  }

  /** Reference definition of "each distinct name once, in first-occurrence
      order": keep an entry iff it does not occur earlier in the list. */
  function FirstOccurrences(names: seq<string>): seq<string>
  {
    if names == [] then []
    else
      var init := names[..|names| - 1];
      var last := names[|names| - 1];
      if last in init then FirstOccurrences(init) else FirstOccurrences(init) + [last]
  }

  /** No name occurs twice. */
  predicate NoDuplicates(s: seq<string>) {
    forall i, j :: 0 <= i < j < |s| ==> s[i] != s[j]
  }

  /** Feeding one more name at the end admits it iff it is new. */
  lemma {:induction false} DrainSnoc(seen: set<string>, names: seq<string>, x: string)
    ensures Drain(seen, names + [x]).admitted ==
      Drain(seen, names).admitted + (if x in seen || x in names then [] else [x])
    decreases names
  {
    if names == [] {
      assert names + [x] == [x];
    } else {
      var a := TestAndSet(seen, names[0]);
      assert (names + [x])[1..] == names[1..] + [x];
      DrainSnoc(a.seen, names[1..], x);
      assert x in a.seen || x in names[1..] <==> x in seen || x in names by {
        assert names == [names[0]] + names[1..];
      }
    }
  }

  /** Draining a list from an empty gate admits exactly the first
      occurrence of each distinct name, in input order. */
  lemma {:induction false} DrainIsFirstOccurrences(names: seq<string>)
    ensures Drain({}, names).admitted == FirstOccurrences(names)
  {
    if names != [] {
      var init := names[..|names| - 1];
      var last := names[|names| - 1];
      assert names == init + [last];
      DrainIsFirstOccurrences(init);
      DrainSnoc({}, init, last);
    }
  }

  /** What the gate admits: no name twice, only names of the list, never a
      name seen before, and every new name of the list. */
  lemma {:induction false} DrainAdmits(seen: set<string>, names: seq<string>)
    ensures NoDuplicates(Drain(seen, names).admitted)
    ensures forall x :: x in Drain(seen, names).admitted <==> x in names && x !in seen
    decreases names
  {
    if names != [] {
      var a := TestAndSet(seen, names[0]);
      DrainAdmits(a.seen, names[1..]);
      assert names == [names[0]] + names[1..];
    }
  }

  /** A list with no duplicates has as many elements as its set. */
  lemma {:induction false} NoDuplicatesCard(s: seq<string>)
    requires NoDuplicates(s)
    ensures |set x | x in s| == |s|
  {
    if s != [] {
      var tail := s[1..];
      NoDuplicatesCard(tail);
      assert (set x | x in s) == {s[0]} + (set x | x in tail) by {
        assert s == [s[0]] + tail;
      }
      assert s[0] !in tail by {
        forall k | 0 <= k < |tail| ensures tail[k] != s[0] {
          assert tail[k] == s[k + 1];
        }
      }
    }
  }

  /** Exactly-once admission: over any sequence of calls, a name is
      admitted once if it is in the list and unseen, and never otherwise;
      so the number admitted is the number of new distinct names. */
  lemma DrainExactlyOnce(seen: set<string>, names: seq<string>)
    ensures forall x :: multiset(Drain(seen, names).admitted)[x] ==
                        (if x in names && x !in seen then 1 else 0)
    ensures |Drain(seen, names).admitted| == |(set x | x in names) - seen|
  {
    var adm := Drain(seen, names).admitted;
    DrainAdmits(seen, names);
    NoDuplicatesCard(adm);
    assert (set x | x in adm) == (set x | x in names) - seen;
    forall x ensures multiset(adm)[x] == (if x in names && x !in seen then 1 else 0) {
      NoDuplicatesCount(adm, x);
    }
  }

  lemma {:induction false} NoDuplicatesCount(s: seq<string>, x: string)
    requires NoDuplicates(s)
    ensures multiset(s)[x] == if x in s then 1 else 0
  {
    if s != [] {
      var tail := s[1..];
      assert s == [s[0]] + tail;
      NoDuplicatesCount(tail, x);
      assert s[0] !in tail by {
        forall k | 0 <= k < |tail| ensures tail[k] != s[0] {
          assert tail[k] == s[k + 1];
        }
      }
    }
  }
}
