/** What a plane is told, in terms of scores and distances alone. */
module Answers {
  // The table of candidates does not show in these statements, and the ten is written out.

  import opened Delivery

  /** The cities before the n-th where the load scores. */
  ghost function UsefulBefore(cities: seq<Stocks>, load: Stocks, n: nat): set<nat>
    requires n <= |cities|
  {
    set c: nat | c < n && Score(cities[c], load) != 0
  }

  ghost function UsefulCities(cities: seq<Stocks>, load: Stocks): set<nat> {
    UsefulBefore(cities, load, |cities|)
  }

  ghost predicate Listed(l: seq<CityInfo>, c: nat) {
    exists i :: 0 <= i < |l| && l[i].city == c
  }

  /** An entry tells the truth about a city where the load scores. */
  ghost predicate TrueEntry(cities: seq<Stocks>, dist: seq<seq<int>>, at: nat, load: Stocks, e: CityInfo)
    requires Square(dist, |cities|) && at < |cities|
  {
    && e.city < |cities| && Score(cities[e.city], load) != 0
    && e.score == Score(cities[e.city], load) && e.distance == dist[e.city][at]
  }

  /** A reply lists ten cities where the load scores, or all there are, each once, with its own score and distance and
      the nearest first; and no city that is left out scores higher than one that is listed. */
  ghost predicate TenBest(cities: seq<Stocks>, dist: seq<seq<int>>, at: nat, load: Stocks, l: seq<CityInfo>)
    requires Square(dist, |cities|) && at < |cities|
  {
    && |l| == (if |UsefulCities(cities, load)| <= 10 then |UsefulCities(cities, load)| else 10)
    && (forall i | 0 <= i < |l| :: TrueEntry(cities, dist, at, load, l[i]))
    && (forall i, j | 0 <= i < j < |l| :: l[i].city != l[j].city)
    && (forall i, j | 0 <= i < j < |l| :: l[i].distance <= l[j].distance)
    && (forall c: nat, j | c < |cities| && Score(cities[c], load) != 0 && !Listed(l, c) && 0 <= j < |l| ::
          Score(cities[c], load) <= l[j].score)
  }

  /** The scan goes through the cities in order.  A city where the load scores is appended while there are fewer
      than ten; then it takes the place of the first of the lowest entries if it scores higher, or is forgotten. */
  lemma ScannedInOrder(cities: seq<Stocks>, dist: seq<seq<int>>, at: nat, load: Stocks, n: nat, m: nat)
    requires Square(dist, |cities|) && at < |cities| && n < |cities|
    requires var k := Kept(cities, dist, at, load, n);
             |k| == 10 ==> m < 10 && (forall i | 0 <= i < 10 :: k[m].score <= k[i].score)
                           && forall i | 0 <= i < m :: k[m].score < k[i].score
    ensures Kept(cities, dist, at, load, 0) == [] && |Kept(cities, dist, at, load, n)| <= 10
    ensures var k, score := Kept(cities, dist, at, load, n), Score(cities[n], load);
            var entry := CityInfo(n, dist[n][at], score);
            Kept(cities, dist, at, load, n + 1)
            == if score == 0 then k
               else if |k| < 10 then k + [entry]
               else if k[m].score < score then k[m := entry]
               else k
  {
    var k := Kept(cities, dist, at, load, n);
    if |k| == 10 {
      InsertIntoFull(k, CityInfo(n, dist[n][at], Score(cities[n], load)), m);
    }
  }

  lemma {:induction false} AsManyUseful(cities: seq<Stocks>, dist: seq<seq<int>>, at: nat, load: Stocks, n: nat)
    requires Square(dist, |cities|) && at < |cities| && n <= |cities|
    ensures |Useful(cities, dist, at, load, n)| == |UsefulBefore(cities, load, n)|
  {
    if n == 0 {
      assert UsefulBefore(cities, load, 0) == {} && Useful(cities, dist, at, load, 0) == {};
    } else {
      AsManyUseful(cities, dist, at, load, n - 1);
      var e := CityInfo(n - 1, dist[n - 1][at], Score(cities[n - 1], load));
      UsefulGrows(cities, dist, at, load, n);
      UsefulBeforeGrows(cities, load, n);
      if Score(cities[n - 1], load) != 0 {
        OneMoreIn(Useful(cities, dist, at, load, n - 1), e);
        OneMoreIn(UsefulBefore(cities, load, n - 1), n - 1);
      }
    }
  }

  lemma OneMoreIn<T>(s: set<T>, e: T)
    requires e !in s
    ensures |s + {e}| == |s| + 1
  {
  }

  lemma UsefulBeforeGrows(cities: seq<Stocks>, load: Stocks, n: nat)
    requires 0 < n <= |cities|
    ensures UsefulBefore(cities, load, n)
            == UsefulBefore(cities, load, n - 1) + if Score(cities[n - 1], load) == 0 then {} else {n - 1}
    ensures n - 1 !in UsefulBefore(cities, load, n - 1)
  {
  }

  // ---------------------------------------------------------------- arrangements

  lemma {:induction false} OnceEach<T>(k: seq<T>, e: T)
    requires forall i, j | 0 <= i < j < |k| :: k[i] != k[j]
    ensures multiset(k)[e] <= 1
    decreases |k|
  {
    if k != [] {
      var last := |k| - 1;
      assert k == k[..last] + [k[last]];
      OnceEach(k[..last], e);
      if e == k[last] {
        assert e !in k[..last];
        assert e !in multiset(k[..last]);
      }
    }
  }

  lemma TwiceCounts<T>(l: seq<T>, i: nat, j: nat)
    requires i < j < |l| && l[i] == l[j]
    ensures multiset(l)[l[i]] >= 2
  {
    assert l == l[..j] + [l[j]] + l[j + 1..];
    assert l[..j][i] == l[i];
    assert l[i] in multiset(l[..j]);
  }

  /** An arrangement of entries that differ has entries that differ. */
  lemma ArrangedOnce<T>(k: seq<T>, l: seq<T>)
    requires multiset(l) == multiset(k) && forall i, j | 0 <= i < j < |k| :: k[i] != k[j]
    ensures forall i, j | 0 <= i < j < |l| :: l[i] != l[j]
  {
    forall i, j | 0 <= i < j < |l| ensures l[i] != l[j] {
      if l[i] == l[j] {
        TwiceCounts(l, i, j);
        OnceEach(k, l[i]);
      }
    }
  }

  /** The entries of a reply are those that were kept. */
  lemma SameEntries(k: seq<CityInfo>, l: seq<CityInfo>)
    requires multiset(l) == multiset(k)
    ensures |l| == |k| && forall e :: e in l <==> e in k
  {
    assert |multiset(l)| == |l| && |multiset(k)| == |k|;
    forall e ensures e in l <==> e in k {
      assert (e in multiset(l)) == (e in l) && (e in multiset(k)) == (e in k);
    }
  }

  // ---------------------------------------------------------------- the reply

  lemma EntryIsTrue(cities: seq<Stocks>, dist: seq<seq<int>>, at: nat, load: Stocks, e: CityInfo)
    requires Square(dist, |cities|) && at < |cities|
    ensures e in Useful(cities, dist, at, load, |cities|) <==> TrueEntry(cities, dist, at, load, e)
  {
    if TrueEntry(cities, dist, at, load, e) {
      assert e == CityInfo(e.city, dist[e.city][at], Score(cities[e.city], load));
    }
  }

  lemma AnswerEntries(cities: seq<Stocks>, dist: seq<seq<int>>, at: nat, load: Stocks, l: seq<CityInfo>)
    requires Square(dist, |cities|) && at < |cities| && Answer(cities, dist, at, load, l)
    ensures |l| == if |UsefulCities(cities, load)| <= 10 then |UsefulCities(cities, load)| else 10
    ensures forall i | 0 <= i < |l| :: TrueEntry(cities, dist, at, load, l[i])
    ensures forall i, j | 0 <= i < j < |l| :: l[i] != l[j]
    ensures forall e, j | TrueEntry(cities, dist, at, load, e) && e !in l && 0 <= j < |l| :: e.score <= l[j].score
  {
    var n := |cities|;
    var k := Kept(cities, dist, at, load, n);
    KeptIsBestTen(cities, dist, at, load, n);
    AsManyUseful(cities, dist, at, load, n);
    SameEntries(k, l);
    ArrangedOnce(k, l);
    forall i | 0 <= i < |l| ensures TrueEntry(cities, dist, at, load, l[i]) {
      assert l[i] in k;
      EntryIsTrue(cities, dist, at, load, l[i]);
    }
    forall e, j | TrueEntry(cities, dist, at, load, e) && e !in l && 0 <= j < |l| ensures e.score <= l[j].score {
      assert l[j] in k && e !in k;
      EntryIsTrue(cities, dist, at, load, e);
    }
  }

  /** Every reply is one of the ten best. */
  lemma AnswerIsTenBest(cities: seq<Stocks>, dist: seq<seq<int>>, at: nat, load: Stocks, l: seq<CityInfo>)
    requires Square(dist, |cities|) && at < |cities| && Answer(cities, dist, at, load, l)
    ensures TenBest(cities, dist, at, load, l)
  {
    AnswerEntries(cities, dist, at, load, l);
    forall i, j | 0 <= i < j < |l| ensures l[i].city != l[j].city {
      assert TrueEntry(cities, dist, at, load, l[i]) && TrueEntry(cities, dist, at, load, l[j]);
    }
    forall c: nat, j | c < |cities| && Score(cities[c], load) != 0 && !Listed(l, c) && 0 <= j < |l|
      ensures Score(cities[c], load) <= l[j].score
    {
      var e := CityInfo(c, dist[c][at], Score(cities[c], load));
      assert TrueEntry(cities, dist, at, load, e) && e !in l;
    }
  }

  /** With no more than ten cities where the load scores, all of them are listed, and none is nearer than the first. */
  lemma NearestOfAll(cities: seq<Stocks>, dist: seq<seq<int>>, at: nat, load: Stocks, l: seq<CityInfo>, c: nat)
    requires Square(dist, |cities|) && at < |cities| && TenBest(cities, dist, at, load, l)
    requires |UsefulCities(cities, load)| <= 10 && c < |cities| && Score(cities[c], load) != 0
    ensures Listed(l, c) && l[0].distance <= dist[c][at]
  {
    var u, s := UsefulCities(cities, load), seq(|l|, i requires 0 <= i < |l| => l[i].city);
    forall i | 0 <= i < |s| ensures s[i] in u {
      assert TrueEntry(cities, dist, at, load, l[i]);
    }
    AllListed(u, s);
    assert c in s;
    var i :| 0 <= i < |s| && s[i] == c;
    assert TrueEntry(cities, dist, at, load, l[i]);
  }

  /** The place and distance that come first in some reply: none of the ten best cities is nearer. */
  ghost predicate NearestOfTen(cities: seq<Stocks>, dist: seq<seq<int>>, at: nat, load: Stocks, c: nat, distance: int)
    requires Square(dist, |cities|) && at < |cities|
  {
    exists l: seq<CityInfo> ::
      TenBest(cities, dist, at, load, l) && l != [] && l[0].city == c && l[0].distance == distance
  }

  lemma NearestMeaning(cities: seq<Stocks>, dist: seq<seq<int>>, at: nat, load: Stocks, c: nat, distance: int)
    requires Square(dist, |cities|) && at < |cities| && NearestOfTen(cities, dist, at, load, c, distance)
    ensures c < |cities| && Score(cities[c], load) != 0 && distance == dist[c][at]
    ensures |UsefulCities(cities, load)| <= 10 ==>
              forall b: nat | b < |cities| && Score(cities[b], load) != 0 :: distance <= dist[b][at]
  {
    var l: seq<CityInfo> :| TenBest(cities, dist, at, load, l) && l != [] && l[0].city == c
                            && l[0].distance == distance;
    assert TrueEntry(cities, dist, at, load, l[0]);
    forall b: nat | |UsefulCities(cities, load)| <= 10 && b < |cities| && Score(cities[b], load) != 0
      ensures distance <= dist[b][at]
    {
      NearestOfAll(cities, dist, at, load, l, b);
    }
  }

  /** A list without repetitions of as many members as u has lists all of u. */
  lemma {:induction false} AllListed(u: set<nat>, s: seq<nat>)
    requires (forall i, j | 0 <= i < j < |s| :: s[i] != s[j]) && (forall i | 0 <= i < |s| :: s[i] in u) && |s| == |u|
    ensures forall c | c in u :: c in s
    decreases |s|
  {
    if s != [] {
      var last, rest := s[|s| - 1], s[..|s| - 1];
      AllListed(u - {last}, rest);
      assert forall c | c in u :: c == last || c in u - {last};
    }
  }
}
