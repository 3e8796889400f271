/** Moves colliding scrape times of one day to the nearest free second. */
module Collision {
  import opened Basics
  import opened Sequences

  const DAY_SECONDS := 86400

  /** A valid record of the day; `second` is scraped_at relative to midnight. */
  datatype Record = Record(source: string, url: string, title: string, price: int, currency: string, second: int)

  predicate SameGroup(a: Record, b: Record) {
    a.source == b.source && a.url == b.url
  }

  predicate InDay(s: int) {
    0 <= s < DAY_SECONDS
  }

  /** A free second of the day nearest to `sec`; of two equally near, the later. */
  ghost predicate NearestFree(taken: set<int>, sec: int, chosen: int) {
    && InDay(chosen) && chosen !in taken
    && forall c :: InDay(c) && c !in taken ==>
         Abs(chosen - sec) < Abs(c - sec) || (Abs(chosen - sec) == Abs(c - sec) && c <= chosen)
  }

  /** The seconds held by the earlier records of `r`'s group. */
  ghost function Held(recs: seq<Record>, n: nat, r: Record): set<int>
    requires n <= |recs|
  {
    set j | 0 <= j < n && SameGroup(recs[j], r) :: recs[j].second
  }

  /** A record keeps its second if that is free, and otherwise moves to a nearest free one. */
  ghost predicate Placed(before: Record, after: Record, taken: set<int>) {
    if before.second !in taken then after == before
    else after == before.(second := after.second) && NearestFree(taken, before.second, after.second)
  }

  ghost predicate Resolution(before: seq<Record>, after: seq<Record>) {
    && |before| == |after|
    && forall i :: 0 <= i < |before| ==> Placed(before[i], after[i], Held(after, i, before[i]))
  }

  ghost function GroupCount(recs: seq<Record>, n: nat, r: Record): nat
    requires n <= |recs|
  {
    if n == 0 then 0 else GroupCount(recs, n - 1, r) + if SameGroup(recs[n - 1], r) then 1 else 0
  }

  ghost function MovedCount(before: seq<Record>, after: seq<Record>, n: nat): nat
    requires n <= |before| && n <= |after|
  {
    if n == 0 then 0 else MovedCount(before, after, n - 1) + if before[n - 1] != after[n - 1] then 1 else 0
  }

  // ----- Room in the day

  function DaySeconds(n: nat): (r: set<int>)
    ensures |r| == n
    ensures forall s :: s in r <==> 0 <= s < n
  {
    if n == 0 then {} else DaySeconds(n - 1) + {n - 1}
  }

  lemma RoomLeft(taken: set<int>)
    requires |taken| < DAY_SECONDS
    ensures exists f :: InDay(f) && f !in taken
  {
    hide DaySeconds;
    var day := DaySeconds(DAY_SECONDS);
    if day <= taken {
      SubsetSize(day, taken);
    }
    assert !(day <= taken);
    var f :| f in day && f !in taken;
    assert InDay(f);
  }

  lemma {:induction false} HeldBounded(recs: seq<Record>, n: nat, r: Record)
    requires n <= |recs|
    ensures |Held(recs, n, r)| <= GroupCount(recs, n, r)
  {
    if n == 0 {
      assert Held(recs, n, r) == {};
    } else {
      HeldBounded(recs, n - 1, r);
      HeldStep(recs, n - 1, r);
    }
  }

  lemma HeldStep(recs: seq<Record>, n: nat, r: Record)
    requires n < |recs|
    ensures Held(recs, n + 1, r) == Held(recs, n, r) + if SameGroup(recs[n], r) then {recs[n].second} else {}
  {
  }

  ghost predicate DistinctInGroups(recs: seq<Record>, n: nat)
    requires n <= |recs|
  {
    forall i, j :: 0 <= i < j < n && SameGroup(recs[i], recs[j]) ==> recs[i].second != recs[j].second
  }

  lemma {:induction false} HeldExact(recs: seq<Record>, n: nat, r: Record)
    requires n <= |recs| && DistinctInGroups(recs, n)
    ensures |Held(recs, n, r)| == GroupCount(recs, n, r)
  {
    if n == 0 {
      assert Held(recs, n, r) == {};
    } else {
      HeldExact(recs, n - 1, r);
      HeldStep(recs, n - 1, r);
    }
  }

  /** The search can succeed exactly while the group has used fewer than 86400
      seconds; with 86400 earlier records in one group it would never end. */
  lemma SearchSucceedsIff(recs: seq<Record>, n: nat, r: Record)
    requires n <= |recs| && DistinctInGroups(recs, n)
    requires forall j :: 0 <= j < n ==> InDay(recs[j].second)
    ensures (exists f :: InDay(f) && f !in Held(recs, n, r)) <==> GroupCount(recs, n, r) < DAY_SECONDS
  {
    hide DaySeconds;
    HeldExact(recs, n, r);
    var held, day := Held(recs, n, r), DaySeconds(DAY_SECONDS);
    if |held| < DAY_SECONDS {
      RoomLeft(held);
    } else {
      forall s | s in held ensures s in day {
        var j :| 0 <= j < n && SameGroup(recs[j], r) && recs[j].second == s;
        assert InDay(recs[j].second);
      }
      SubsetSize(held, day);
      forall f | InDay(f) ensures f in held {
        assert f in day;
      }
    }
  }

  // ----- The algorithm

  /** +1, -1, +2, -2, ... from `sec` until a free second of the day is met. */
  method NearestFreeSecond(taken: set<int>, sec: int) returns (chosen: int)
    requires sec in taken
    requires exists f :: InDay(f) && f !in taken
    ensures NearestFree(taken, sec, chosen)
  {
    ghost var f :| InDay(f) && f !in taken;
    var delta := 1;
    while true
      invariant forall c :: InDay(c) && c !in taken ==> Abs(c - sec) >= delta
      decreases Abs(f - sec) - delta
    {
      if InDay(sec + delta) && sec + delta !in taken {
        return sec + delta;
      }
      if InDay(sec - delta) && sec - delta !in taken {
        return sec - delta;
      }
      delta := delta + 1;
    }
  }

  ghost predicate Tracks(used: map<(string, string), set<int>>, recs: seq<Record>, n: nat)
    requires n <= |recs|
  {
    forall r: Record :: (if (r.source, r.url) in used then used[(r.source, r.url)] else {}) == Held(recs, n, r)
  }

  lemma {:induction false} SameGroupsSameCount(a: seq<Record>, b: seq<Record>, n: nat, r: Record)
    requires n <= |a| && |a| == |b|
    requires forall j :: 0 <= j < |a| ==> SameGroup(a[j], b[j])
    ensures GroupCount(a, n, r) == GroupCount(b, n, r)
  {
    if n > 0 {
      SameGroupsSameCount(a, b, n - 1, r);
    }
  }

  lemma {:induction false} GroupCountMonotone(recs: seq<Record>, m: nat, n: nat, r: Record)
    requires m <= n <= |recs|
    ensures GroupCount(recs, m, r) <= GroupCount(recs, n, r)
  {
    if m < n {
      GroupCountMonotone(recs, m, n - 1, r);
    }
  }

  lemma RoomForNext(before: seq<Record>, prior: seq<Record>, i: nat)
    requires i < |before| && |before| == |prior|
    requires forall j :: 0 <= j < |before| ==> SameGroup(prior[j], before[j])
    requires GroupCount(before, |before|, before[i]) <= DAY_SECONDS
    ensures exists f :: InDay(f) && f !in Held(prior, i, before[i])
  {
    SameGroupsSameCount(prior, before, i, before[i]);
    GroupCountMonotone(before, i + 1, |before|, before[i]);
    HeldBounded(prior, i, before[i]);
    RoomLeft(Held(prior, i, before[i]));
  }

  lemma HeldPrefix(a: seq<Record>, b: seq<Record>, n: nat, r: Record)
    requires n <= |a| && n <= |b| && a[..n] == b[..n]
    ensures Held(a, n, r) == Held(b, n, r)
  {
    forall j | 0 <= j < n ensures a[j] == b[j] {
      assert a[..n][j] == b[..n][j];
    }
  }

  lemma {:induction false} MovedPrefix(before: seq<Record>, a: seq<Record>, b: seq<Record>, n: nat)
    requires n <= |a| && n <= |b| && n <= |before| && a[..n] == b[..n]
    ensures MovedCount(before, a, n) == MovedCount(before, b, n)
  {
    if n > 0 {
      assert a[..n - 1] == a[..n][..n - 1] && b[..n - 1] == b[..n][..n - 1];
      assert a[n - 1] == a[..n][n - 1] && b[n - 1] == b[..n][n - 1];
      MovedPrefix(before, a, b, n - 1);
    }
  }

  lemma PlaceNext(before: seq<Record>, prior: seq<Record>, i: nat, x: Record)
    requires i < |before| && |before| == |prior|
    requires forall j :: 0 <= j < i ==> Placed(before[j], prior[j], Held(prior, j, before[j]))
    requires Placed(before[i], x, Held(prior, i, before[i]))
    ensures forall j :: 0 <= j <= i ==> Placed(before[j], prior[i := x][j], Held(prior[i := x], j, before[j]))
    ensures MovedCount(before, prior[i := x], i + 1) == MovedCount(before, prior, i) + if before[i] != x then 1 else 0
  {
    var after := prior[i := x];
    forall j | 0 <= j <= i ensures Held(after, j, before[j]) == Held(prior, j, before[j]) {
      HeldPrefix(after, prior, j, before[j]);
    }
    MovedPrefix(before, after, prior, i);
  }

  lemma TrackNext(used: map<(string, string), set<int>>, prior: seq<Record>, i: nat, x: Record)
    requires i < |prior| && Tracks(used, prior, i) && SameGroup(prior[i], x)
    ensures Tracks(used[(x.source, x.url) := Held(prior, i, prior[i]) + {x.second}], prior[i := x], i + 1)
  {
    var after, used' := prior[i := x], used[(x.source, x.url) := Held(prior, i, prior[i]) + {x.second}];
    forall r: Record
      ensures (if (r.source, r.url) in used' then used'[(r.source, r.url)] else {}) == Held(after, i + 1, r)
    {
      HeldPrefix(after, prior, i, r);
      HeldStep(after, i, r);
      assert (if (r.source, r.url) in used then used[(r.source, r.url)] else {}) == Held(prior, i, r);
      if SameGroup(x, r) {
        assert Held(prior, i, r) == Held(prior, i, prior[i]);
      }
    }
  }

  lemma TracksAt(used: map<(string, string), set<int>>, recs: seq<Record>, n: nat, r: Record)
    requires n <= |recs| && Tracks(used, recs, n)
    ensures (if (r.source, r.url) in used then used[(r.source, r.url)] else {}) == Held(recs, n, r)
  {
  }

  lemma NothingHeld(recs: seq<Record>)
    ensures Tracks(map[], recs, 0)
    ensures MovedCount(recs, recs, 0) == 0
  {
    forall r: Record ensures Held(recs, 0, r) == {} {
    }
  }

  method ResolveValidKeyCollisions(recs: array<Record>) returns (nudged: nat)
    requires forall r :: r in recs[..] ==> GroupCount(recs[..], recs.Length, r) <= DAY_SECONDS
    modifies recs
    ensures Resolution(old(recs[..]), recs[..])
    ensures nudged == MovedCount(old(recs[..]), recs[..], recs.Length)
  {
    hide Held, GroupCount, MovedCount, NearestFree, Tracks;
    ghost var before := recs[..];
    var used: map<(string, string), set<int>> := map[];
    nudged := 0;
    NothingHeld(before);
    for i := 0 to recs.Length
      invariant forall j :: i <= j < recs.Length ==> recs[j] == before[j]
      invariant forall j :: 0 <= j < recs.Length ==> SameGroup(recs[j], before[j])
      invariant forall j :: 0 <= j < i ==> Placed(before[j], recs[j], Held(recs[..], j, before[j]))
      invariant Tracks(used, recs[..], i)
      invariant nudged == MovedCount(before, recs[..], i)
    {
      ghost var prior, tracked := recs[..], used;
      var rec := recs[i];
      var key := (rec.source, rec.url);
      var taken := if key in used then used[key] else {};
      TracksAt(used, prior, i, rec);
      if rec.second !in taken {
        used := used[key := taken + {rec.second}];
      } else {
        RoomForNext(before, prior, i);
        var newSec := NearestFreeSecond(taken, rec.second);
        used := used[key := taken + {newSec}];
        recs[i] := rec.(second := newSec);
        nudged := nudged + 1;
      }
      assert recs[..] == prior[i := recs[i]];
      PlaceNext(before, prior, i, recs[i]);
      TrackNext(tracked, prior, i, recs[i]);
    }
  }

  // ----- What a resolution guarantees

  /** All seconds of a group end up distinct. */
  lemma ResolutionDistinct(before: seq<Record>, after: seq<Record>)
    requires Resolution(before, after)
    ensures DistinctInGroups(after, |after|)
  {
    forall i, j | 0 <= i < j < |after| && SameGroup(after[i], after[j])
      ensures after[i].second != after[j].second
    {
      assert Placed(before[j], after[j], Held(after, j, before[j]));
      assert after[i].second in Held(after, j, before[j]);
    }
  }

  /** A record moves exactly if an earlier one of the same source and URL ends on its second;
      in the end no two records of one source and URL share a second. */
  lemma MovedIff(before: seq<Record>, after: seq<Record>, i: nat)
    requires Resolution(before, after) && i < |before|
    ensures after[i] != before[i]
       <==> exists j :: 0 <= j < i && after[j].source == before[i].source && after[j].url == before[i].url
                        && after[j].second == before[i].second
    ensures forall j :: 0 <= j < i && after[j].source == after[i].source && after[j].url == after[i].url
                        ==> after[j].second != after[i].second
  {
    assert Placed(before[i], after[i], Held(after, i, before[i]));
    assert forall j :: 0 <= j < i && SameGroup(after[j], before[i]) ==> after[j].second in Held(after, i, before[i]);
  }

  /** Only scrape times change, and none leaves the day. */
  lemma ResolutionKeepsRecords(before: seq<Record>, after: seq<Record>, i: nat)
    requires Resolution(before, after) && i < |before|
    ensures after[i] == before[i].(second := after[i].second)
    ensures InDay(before[i].second) ==> InDay(after[i].second)
    ensures after[i] != before[i] <==> before[i].second in Held(after, i, before[i])
  {
    assert Placed(before[i], after[i], Held(after, i, before[i]));
  }

  lemma PlacedOnce(r: Record, a: Record, b: Record, taken: set<int>)
    requires Placed(r, a, taken) && Placed(r, b, taken)
    ensures a == b
  {
  }

  lemma SameSize(before: seq<Record>, after: seq<Record>)
    requires Resolution(before, after)
    ensures |after| == |before|
  {
  }

  lemma ResolvedOnce(before: seq<Record>, a: seq<Record>, b: seq<Record>, i: nat)
    requires Resolution(before, a) && Resolution(before, b) && i < |before| && a[..i] == b[..i]
    ensures a[i] == b[i]
  {
    hide Placed, Held;
    HeldPrefix(a, b, i, before[i]);
    assert Placed(before[i], a[i], Held(a, i, before[i]));
    assert Placed(before[i], b[i], Held(b, i, before[i]));
    PlacedOnce(before[i], a[i], b[i], Held(a, i, before[i]));
  }

  /** The rules leave no freedom: the input determines the result. */
  lemma {:induction false} ResolutionUnique(before: seq<Record>, a: seq<Record>, b: seq<Record>, n: nat)
    requires Resolution(before, a) && Resolution(before, b) && n <= |before|
    ensures a[..n] == b[..n]
  {
    SameSize(before, a);
    SameSize(before, b);
    hide Resolution;
    if n > 0 {
      ResolutionUnique(before, a, b, n - 1);
      ResolvedOnce(before, a, b, n - 1);
      forall k | 0 <= k < n ensures a[k] == b[k] {
        if k < n - 1 {
          assert a[..n - 1][k] == b[..n - 1][k];
        }
      }
    }
  }

  /** Records without collisions are left alone, so a second pass moves nothing. */
  lemma ResolvedIsFixed(before: seq<Record>, after: seq<Record>)
    requires DistinctInGroups(before, |before|) && Resolution(before, after)
    ensures after == before
  {
    forall i | 0 <= i < |before| ensures Placed(before[i], before[i], Held(before, i, before[i])) {
      assert before[i].second !in Held(before, i, before[i]);
    }
    ResolutionUnique(before, after, before, |before|);
    assert after[..|before|] == after && before[..|before|] == before;
  }

  /** Which record moves depends on the moves before it: the only record
      stamped 11 gives way to one pushed there from 10. */
  lemma NudgeCascades(a: Record, b: Record, c: Record, after: seq<Record>)
    requires SameGroup(a, b) && SameGroup(b, c)
    requires a.second == 10 && b.second == 10 && c.second == 11
    requires Resolution([a, b, c], after)
    ensures after[0].second == 10 && after[1].second == 11 && after[2].second == 12
  {
    var before := [a, b, c];
    assert Placed(before[0], after[0], Held(after, 0, before[0]));
    assert Held(after, 0, before[0]) == {};
    assert Placed(before[1], after[1], Held(after, 1, before[1]));
    assert Held(after, 1, before[1]) == {10};
    assert InDay(11) && InDay(9);
    assert Placed(before[2], after[2], Held(after, 2, before[2]));
    assert Held(after, 2, before[2]) == {10, 11};
    assert InDay(12);
  }
}
