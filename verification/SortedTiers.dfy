/** The "sort a copy in descending order, take the first match" idiom that the fare
    calculator and the cancellation policy both use on their tier lists. */
module SortedTiers {
  import opened Options

  /** Descending insertion that puts an element before its equals. */
  function InsertDesc<T>(t: T, sorted: seq<T>, key: T -> real): seq<T> {
    if sorted == [] then [t]
    else if key(t) >= key(sorted[0]) then [t] + sorted
    else [sorted[0]] + InsertDesc(t, sorted[1..], key)
  }

  /** `[...ts].sort((a, b) => key(b) - key(a))`: descending, equals stay in list order. */
  function SortDesc<T>(ts: seq<T>, key: T -> real): seq<T> {
    if ts == [] then [] else InsertDesc(ts[0], SortDesc(ts[1..], key), key)
  }

  /** `sorted.find(matches)` */
  function First<T>(sorted: seq<T>, matches: T -> bool): Option<T> {
    if sorted == [] then None
    else if matches(sorted[0]) then Some(sorted[0])
    else First(sorted[1..], matches)
  }

  function Select<T>(ts: seq<T>, key: T -> real, matches: T -> bool): Option<T> {
    First(SortDesc(ts, key), matches)
  }

  ghost predicate Descending<T>(ts: seq<T>, key: T -> real) {
    forall i, j :: 0 <= i < j < |ts| ==> key(ts[i]) >= key(ts[j])
  }

  lemma {:induction false} InsertDescMembers<T>(t: T, sorted: seq<T>, key: T -> real, u: T)
    ensures u in InsertDesc(t, sorted, key) <==> u == t || u in sorted
  {
    if sorted != [] && key(t) < key(sorted[0]) {
      InsertDescMembers(t, sorted[1..], key, u);
    }
  }

  lemma {:induction false} InsertDescSorted<T>(t: T, sorted: seq<T>, key: T -> real)
    requires Descending(sorted, key)
    ensures Descending(InsertDesc(t, sorted, key), key)
  {
    if sorted != [] && key(t) < key(sorted[0]) {
      var rest := InsertDesc(t, sorted[1..], key);
      InsertDescSorted(t, sorted[1..], key);
      forall i | 0 <= i < |rest| ensures key(sorted[0]) >= key(rest[i]) {
        InsertDescMembers(t, sorted[1..], key, rest[i]);
      }
    }
  }

  lemma {:induction false} SortDescSorted<T>(ts: seq<T>, key: T -> real)
    ensures Descending(SortDesc(ts, key), key)
  {
    if ts != [] {
      SortDescSorted(ts[1..], key);
      InsertDescSorted(ts[0], SortDesc(ts[1..], key), key);
    }
  }

  lemma {:induction false} SortDescMembers<T>(ts: seq<T>, key: T -> real, t: T)
    ensures t in SortDesc(ts, key) <==> t in ts
  {
    if ts != [] {
      SortDescMembers(ts[1..], key, t);
      InsertDescMembers(ts[0], SortDesc(ts[1..], key), key, t);
    }
  }

  ghost predicate FirstAt<T>(sorted: seq<T>, matches: T -> bool, i: int) {
    && 0 <= i < |sorted|
    && matches(sorted[i])
    && forall k :: 0 <= k < i ==> !matches(sorted[k])
  }

  lemma {:induction false} FirstFinds<T>(sorted: seq<T>, matches: T -> bool)
    ensures First(sorted, matches).None? <==> forall u :: u in sorted ==> !matches(u)
    ensures First(sorted, matches).Some? ==>
      exists i :: FirstAt(sorted, matches, i) && sorted[i] == First(sorted, matches).value
  {
    if sorted != [] && !matches(sorted[0]) {
      var rest := sorted[1..];
      FirstFinds(rest, matches);
      if First(rest, matches).Some? {
        var i :| FirstAt(rest, matches, i) && rest[i] == First(rest, matches).value;
        assert forall k :: 1 <= k < i + 1 ==> sorted[k] == rest[k - 1];
        assert FirstAt(sorted, matches, i + 1);
      }
    } else if sorted != [] {
      assert FirstAt(sorted, matches, 0);
    }
  }

  /** `t` is a tier of `ts` that matches, and no matching tier has a larger key. */
  ghost predicate IsTopMatch<T>(t: T, ts: seq<T>, key: T -> real, matches: T -> bool) {
    t in ts && matches(t) && forall u :: u in ts && matches(u) ==> key(u) <= key(t)
  }

  /** Whatever the order of the list, the selection is a matching tier with the largest key. */
  lemma SelectIsTopMatch<T>(ts: seq<T>, key: T -> real, matches: T -> bool)
    ensures Select(ts, key, matches).None? <==> forall u :: u in ts ==> !matches(u)
    ensures Select(ts, key, matches).Some? ==> IsTopMatch(Select(ts, key, matches).value, ts, key, matches)
  {
    var sorted := SortDesc(ts, key);
    SortDescSorted(ts, key);
    FirstFinds(sorted, matches);
    forall u ensures u in sorted <==> u in ts { SortDescMembers(ts, key, u); }
  }

  /** Where an element goes decides what is found first. */
  lemma {:induction false} FirstAfterInsert<T>(t: T, sorted: seq<T>, key: T -> real, matches: T -> bool)
    requires Descending(sorted, key)
    ensures var was := First(sorted, matches);
            First(InsertDesc(t, sorted, key), matches)
            == if matches(t) && (was.None? || key(t) >= key(was.value)) then Some(t) else was
  {
    if sorted != [] {
      var rest := sorted[1..];
      if key(t) >= key(sorted[0]) {
        assert ([t] + sorted)[1..] == sorted;
        FirstFinds(sorted, matches);
      } else {
        assert ([sorted[0]] + InsertDesc(t, rest, key))[1..] == InsertDesc(t, rest, key);
        FirstAfterInsert(t, rest, key, matches);
        FirstFinds(rest, matches);
      }
    }
  }

  /** Entry `i` matches, no matching one has a larger key, and none before it has the same. */
  ghost predicate FirstOfTop<T>(ts: seq<T>, i: int, key: T -> real, matches: T -> bool) {
    && 0 <= i < |ts| && matches(ts[i])
    && (forall j :: 0 <= j < |ts| && matches(ts[j]) ==> key(ts[j]) <= key(ts[i]))
    && forall j :: 0 <= j < i && matches(ts[j]) ==> key(ts[j]) < key(ts[i])
  }

  /** Of several matching tiers with the largest key the one that is listed first is selected. */
  lemma {:induction false} SelectIsFirstOfTop<T>(ts: seq<T>, key: T -> real, matches: T -> bool)
    ensures Select(ts, key, matches).Some? ==>
      exists i :: FirstOfTop(ts, i, key, matches) && ts[i] == Select(ts, key, matches).value
  {
    if ts != [] {
      var rest := ts[1..];
      SortDescSorted(rest, key);
      FirstAfterInsert(ts[0], SortDesc(rest, key), key, matches);
      SelectIsFirstOfTop(rest, key, matches);
      SelectIsTopMatch(rest, key, matches);
      assert forall j :: 1 <= j < |ts| ==> ts[j] == rest[j - 1] && rest[j - 1] in rest;
      var was := Select(rest, key, matches);
      if matches(ts[0]) && (was.None? || key(ts[0]) >= key(was.value)) {
        assert FirstOfTop(ts, 0, key, matches);
      } else if was.Some? {
        var i :| FirstOfTop(rest, i, key, matches) && rest[i] == was.value;
        assert FirstOfTop(ts, i + 1, key, matches);
      }
    }
  }

  /** The loop with `break` over the sorted copy. */
  method SelectByLoop<T>(ts: seq<T>, key: T -> real, matches: T -> bool) returns (matched: Option<T>)
    ensures matched == Select(ts, key, matches)
  {
    var tiers := SortDesc(ts, key);
    matched := None;
    var i := 0;
    while i < |tiers|
      invariant 0 <= i <= |tiers|
      invariant matched.None?
      invariant First(tiers, matches) == First(tiers[i..], matches)
    {
      if matches(tiers[i]) {
        matched := Some(tiers[i]);
        break;
      }
      assert tiers[i..][1..] == tiers[i + 1..];
      i := i + 1;
    }
  }
}
