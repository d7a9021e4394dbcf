/** Optional values, lookups and ordered choice shared by every module. */
module Prelude {
  datatype Option<+T> = None | Some(value: T)

  function Get<T>(m: map<int, T>, k: int): Option<T> { if k in m then Some(m[k]) else None }

  method PickOne<T>(s: set<T>) returns (x: T)
    requires s != {}
    ensures x in s
  {
    x :| x in s;
  }

  // ---- the first of the keys, by a ranking ------------------------------------------

  type Rank = (int, int, int)

  predicate AtMost(a: Rank, b: Rank) {
    a.0 < b.0 || (a.0 == b.0 && (a.1 < b.1 || (a.1 == b.1 && a.2 <= b.2)))
  }

  predicate Least(ranks: map<int, Rank>, k: int) {
    k in ranks && forall j | j in ranks :: AtMost(ranks[k], ranks[j])
  }

  lemma AnyKey<T>(s: set<T>) returns (x: T)
    requires s != {}
    ensures x in s
  {
    x :| x in s;
  }

  lemma {:induction false} LeastExists(ranks: map<int, Rank>)
    requires ranks != map[]
    ensures exists k :: k in ranks && Least(ranks, k)
    decreases |ranks|
  {
    assert ranks.Keys != {} by {
      assert ranks.Keys == {} ==> ranks == map[];
    }
    var some := AnyKey(ranks.Keys);
    var rest := ranks - {some};
    assert forall j | j in ranks :: j == some || j in rest;
    if rest != map[] {
      LeastExists(rest);
      var f :| f in rest && Least(rest, f);
      assert Least(ranks, if AtMost(ranks[some], ranks[f]) then some else f);
    } else {
      assert Least(ranks, some);
    }
  }

  method PickLeast(ranks: map<int, Rank>) returns (k: int)
    requires ranks != map[]
    ensures Least(ranks, k)
  {
    LeastExists(ranks);
    k :| k in ranks && Least(ranks, k);
  }
}
