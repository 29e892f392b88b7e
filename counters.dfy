/**
 * String-keyed tallies: Python's `Counter` and `defaultdict(int)` as the
 * analyzers use them (a missing key reads as 0, `c[k] += 1` adds the key).
 */
module Counters {

  type Tally = map<string, nat>

  /** `c[k]` on a Counter: 0 for a key never counted. */
  function Count(c: Tally, k: string): nat {
    if k in c then c[k] else 0
  }

  /** `c[k] += 1`. */
  function Bump(c: Tally, k: string): Tally {
    c[k := Count(c, k) + 1]
  }

  /** The sum of all counts, `sum(c.values())`. */
  ghost function Total(c: Tally): nat
    decreases c.Keys
  {
    if c == map[] then 0
    else
      var k :| k in c;
      c[k] + Total(c - {k})
  }

  /** Any key can be taken out first when summing. */
  lemma {:induction false} TotalWithout(c: Tally, k: string)
    requires k in c
    ensures Total(c) == c[k] + Total(c - {k})
    decreases c.Keys
  {
    var j :| j in c && Total(c) == c[j] + Total(c - {j});
    if j != k {
      TotalWithout(c - {j}, k);
      TotalWithout(c - {k}, j);
      assert c - {j} - {k} == c - {k} - {j};
    }
  }

  /** `c[k] += 1` adds exactly one to the sum of the counts, whether or not
      `k` was counted before. */
  lemma TotalBump(c: Tally, k: string)
    ensures Total(Bump(c, k)) == Total(c) + 1
    ensures Count(Bump(c, k), k) == Count(c, k) + 1
    ensures forall j :: j != k ==> Count(Bump(c, k), j) == Count(c, j)
  {
    var b := Bump(c, k);
    TotalWithout(b, k);
    assert b - {k} == c - {k};
    if k in c {
      TotalWithout(c, k);
    } else {
      assert c - {k} == c;
    }
  }
}
