/** The agent pool as a value: the ids registered now and the id picked last.
    Agents may join and leave between picks; the pick itself is the cyclic
    successor of the last pick.  Nothing here depends on how the pool stores
    its agents, so both the Registry class and the control-session machine
    use these definitions. */
module RoundRobin {
  import opened Sets

  /** next is the smallest id above last, or the smallest id when none is above. */
  ghost predicate IsSuccessor(ids: set<int>, last: int, next: int) {
    && next in ids
    && if exists id :: id in ids && last < id
       then last < next && forall id :: id in ids && last < id ==> next <= id
       else forall id :: id in ids ==> next <= id
  }

  ghost predicate IsLeast(ids: set<int>, m: int) { m in ids && forall id :: id in ids ==> m <= id }

  lemma LeastOfMore(ids: set<int>, id: int, m: int)
    requires id in ids && (IsLeast(ids - {id}, m) || ids - {id} == {})
    ensures IsLeast(ids, if ids - {id} == {} || id < m then id else m)
  {
    forall k | k in ids && k != id ensures k in ids - {id} {
    }
  }

  lemma {:induction false} MinimumExists(ids: set<int>)
    requires ids != {}
    ensures exists m :: IsLeast(ids, m)
  {
    hide IsLeast;
    var id := Element(ids);
    var m := 0;
    if ids - {id} != {} {
      MinimumExists(ids - {id});
      m :| IsLeast(ids - {id}, m);
    }
    LeastOfMore(ids, id, m);
  }

  lemma SuccessorExists(ids: set<int>, last: int)
    requires ids != {}
    ensures exists next :: IsSuccessor(ids, last, next)
  {
    var above := set id | id in ids && last < id;
    if exists id :: id in ids && last < id {
      var id :| id in ids && last < id;
      assert id in above;
      MinimumExists(above);
      var m :| IsLeast(above, m);
      assert forall k :: k in ids && last < k ==> k in above;
      assert IsSuccessor(ids, last, m);
    } else {
      MinimumExists(ids);
      var m :| IsLeast(ids, m);
      assert IsSuccessor(ids, last, m);
    }
  }

  ghost function Successor(ids: set<int>, last: int): (next: int)
    requires ids != {}
    ensures IsSuccessor(ids, last, next)
  {
    SuccessorExists(ids, last);
    var next :| IsSuccessor(ids, last, next);
    next
  }

  /** One observable change of the pool. */
  datatype Event = Joined(id: int) | Left(id: int) | Picked(id: int)

  function After(ids: set<int>, e: Event): set<int> {
    match e
    case Joined(id) => ids + {id}
    case Left(id) => ids - {id}
    case Picked(_) => ids
  }

  /** evs is a possible history of a pool that starts with ids and last. */
  ghost predicate IsHistory(ids: set<int>, last: int, evs: seq<Event>)
    decreases |evs|
  {
    evs == [] ||
    (&& (evs[0].Picked? ==> IsSuccessor(ids, last, evs[0].id))
     && IsHistory(After(ids, evs[0]), if evs[0].Picked? then evs[0].id else last, evs[1..]))
  }

  function Picks(evs: seq<Event>): seq<int> {
    if evs == [] then []
    else (if evs[0].Picked? then [evs[0].id] else []) + Picks(evs[1..])
  }

  /** Every id that was registered at some point of the history. */
  function EverRegistered(ids: set<int>, evs: seq<Event>): set<int>
    decreases |evs|
  {
    if evs == [] then ids else ids + EverRegistered(After(ids, evs[0]), evs[1..])
  }

  /** The walk towards x: first upwards from x, then, after the wrap, upwards
      to x.  b lies strictly further along that walk than a. */
  predicate Closer(x: int, a: int, b: int) {
    (x <= a && b < x) || ((x <= a <==> x <= b) && a < b)
  }

  lemma CloserAndCloser(x: int, a: int, b: int, c: int)
    requires Closer(x, a, b) && Closer(x, b, c)
    ensures Closer(x, a, c)
  {
  }

  lemma PickMovesCloser(ids: set<int>, last: int, x: int, next: int)
    requires x in ids && IsSuccessor(ids, last, next) && next != x
    ensures Closer(x, last, next)
  {
    if last < x {
      assert x in ids && last < x;
    }
  }

  lemma {:induction false} PicksAdvance(ids: set<int>, last: int, evs: seq<Event>, x: int)
    requires IsHistory(ids, last, evs) && x in ids
    requires Left(x) !in evs && x !in Picks(evs)
    ensures forall i :: 0 <= i < |Picks(evs)| ==> Closer(x, last, Picks(evs)[i])
    ensures forall i, j :: 0 <= i < j < |Picks(evs)| ==> Closer(x, Picks(evs)[i], Picks(evs)[j])
    decreases |evs|
  {
    hide Closer, IsSuccessor;
    if evs != [] {
      var e, rest := evs[0], evs[1..];
      assert Left(x) !in rest && e != Left(x);
      var last' := if e.Picked? then e.id else last;
      assert forall p :: p in Picks(rest) ==> p in Picks(evs);
      PicksAdvance(After(ids, e), last', rest, x);
      if e.Picked? {
        assert Picks(evs) == [e.id] + Picks(rest);
        PickMovesCloser(ids, last, x, e.id);
        forall i | 0 <= i < |Picks(rest)| ensures Closer(x, last, Picks(rest)[i]) {
          CloserAndCloser(x, last, e.id, Picks(rest)[i]);
        }
      } else {
        assert Picks(evs) == Picks(rest);
      }
    }
  }

  lemma {:induction false} PicksWereRegistered(ids: set<int>, last: int, evs: seq<Event>)
    requires IsHistory(ids, last, evs)
    ensures forall p :: p in Picks(evs) ==> p in EverRegistered(ids, evs)
    decreases |evs|
  {
    if evs != [] {
      PicksWereRegistered(After(ids, evs[0]), if evs[0].Picked? then evs[0].id else last, evs[1..]);
    }
  }

  predicate Distinct(s: seq<int>) {
    forall i, j :: 0 <= i < j < |s| ==> s[i] != s[j]
  }

  /** Bounded bypass under arbitrary churn: while x stays registered and waits
      for its turn, no other agent is picked twice, so the wait is shorter than
      the number of agents that were ever registered meanwhile. */
  lemma BoundedBypass(ids: set<int>, last: int, evs: seq<Event>, x: int)
    requires IsHistory(ids, last, evs) && x in ids
    requires Left(x) !in evs && x !in Picks(evs)
    ensures Distinct(Picks(evs))
    ensures |Picks(evs)| <= |EverRegistered(ids, evs) - {x}|
  {
    PicksAdvance(ids, last, evs, x);
    PicksWereRegistered(ids, last, evs);
    DistinctFits(Picks(evs), EverRegistered(ids, evs) - {x});
  }

  /** The same bound read as progress: once more picks have been made than
      there are other agents, x has been picked. */
  lemma NoStarvation(ids: set<int>, last: int, evs: seq<Event>, x: int)
    requires IsHistory(ids, last, evs) && x in ids && Left(x) !in evs
    requires |EverRegistered(ids, evs) - {x}| < |Picks(evs)|
    ensures x in Picks(evs)
  {
    if x !in Picks(evs) { BoundedBypass(ids, last, evs, x); }
  }

  lemma {:induction false} DistinctFits(s: seq<int>, room: set<int>)
    requires Distinct(s) && forall p :: p in s ==> p in room
    ensures |s| <= |room|
  {
    if s != [] {
      var front, p := s[..|s| - 1], s[|s| - 1];
      assert forall q :: q in front ==> q in s && q != p;
      DistinctFits(front, room - {p});
    }
  }

  /** A history without churn: every event is a pick. */
  ghost predicate IsPickRun(ids: set<int>, last: int, ps: seq<int>)
    decreases |ps|
  {
    ps == [] || (IsSuccessor(ids, last, ps[0]) && IsPickRun(ids, ps[0], ps[1..]))
  }

  function AsEvents(ps: seq<int>): seq<Event> {
    seq(|ps|, i requires 0 <= i < |ps| => Picked(ps[i]))
  }

  lemma {:induction false} PickRunIsHistory(ids: set<int>, last: int, ps: seq<int>)
    requires IsPickRun(ids, last, ps)
    ensures IsHistory(ids, last, AsEvents(ps)) && Picks(AsEvents(ps)) == ps
    decreases |ps|
  {
    if ps != [] {
      assert AsEvents(ps)[1..] == AsEvents(ps[1..]);
      PickRunIsHistory(ids, ps[0], ps[1..]);
    }
  }

  lemma {:induction false} PickRunSplits(ids: set<int>, last: int, ps: seq<int>, k: nat)
    requires IsPickRun(ids, last, ps) && k <= |ps|
    ensures IsPickRun(ids, last, ps[..k])
    ensures IsPickRun(ids, if k == 0 then last else ps[k - 1], ps[k..])
    decreases |ps|
  {
    if k > 0 {
      PickRunSplits(ids, ps[0], ps[1..], k - 1);
      assert ps[..k][1..] == ps[1..][..k - 1];
      assert ps[1..][k - 1..] == ps[k..];
    }
  }

  lemma {:induction false} PickRunStaysInside(ids: set<int>, last: int, ps: seq<int>)
    requires IsPickRun(ids, last, ps)
    ensures forall p :: p in ps ==> p in ids
    decreases |ps|
  {
    if ps != [] { PickRunStaysInside(ids, ps[0], ps[1..]); }
  }

  function Range(s: seq<int>): set<int> { set p | p in s }

  lemma {:induction false} RangeIsSmall(s: seq<int>)
    ensures |Range(s)| <= |s|
  {
    if s != [] {
      RangeIsSmall(s[1..]);
      assert Range(s) == {s[0]} + Range(s[1..]);
    }
  }

  /** Without churn no agent comes round again within |ids| picks: between two
      picks of the same agent some other agent would have been bypassed twice. */
  lemma ShortRunsAreDistinct(ids: set<int>, last: int, ps: seq<int>)
    requires IsPickRun(ids, last, ps) && |ps| <= |ids|
    ensures Distinct(ps)
  {
    hide IsPickRun, IsHistory, IsSuccessor, Picks;
    forall i, j | 0 <= i < j < |ps| ensures ps[i] != ps[j] {
      PickRunSplits(ids, last, ps, i + 1);
      var tail := ps[i + 1..];
      PickRunSplits(ids, ps[i], tail, j - i);
      var lap := tail[..j - i];
      RangeIsSmall(lap);
      PickRunStaysInside(ids, ps[i], lap);
      assert exists x :: x in ids && x !in lap by {
        if forall x :: x in ids ==> x in lap { FitsInside(ids, Range(lap)); }
      }
      var x :| x in ids && x !in lap;
      PickRunIsHistory(ids, ps[i], lap);
      assert forall e :: e in AsEvents(lap) ==> e.Picked?;
      PicksAdvance(ids, ps[i], AsEvents(lap), x);
      assert lap[j - i - 1] == ps[j];
    }
  }

  lemma DistinctFillsUp(s: seq<int>, ids: set<int>)
    requires Distinct(s) && |s| == |ids| && forall p :: p in s ==> p in ids
    ensures multiset(s) == multiset(ids)
  {
    forall p | p in ids ensures p in s {
      if p !in s {
        DistinctFits(s, ids - {p});
      }
    }
    DistinctCounts(s);
  }

  lemma {:induction false} DistinctCounts(s: seq<int>)
    requires Distinct(s)
    ensures forall p :: multiset(s)[p] == if p in s then 1 else 0
  {
    if s != [] {
      DistinctCounts(s[1..]);
      assert s == [s[0]] + s[1..];
      assert s[0] !in s[1..];
    }
  }

  /** Stable-set fairness: |ids| consecutive picks are a permutation of ids. */
  lemma RoundIsPermutation(ids: set<int>, last: int, ps: seq<int>)
    requires IsPickRun(ids, last, ps) && |ps| == |ids|
    ensures multiset(ps) == multiset(ids)
  {
    ShortRunsAreDistinct(ids, last, ps);
    PickRunStaysInside(ids, last, ps);
    DistinctFillsUp(ps, ids);
  }

  /** The number of full rounds of n picks in m picks. */
  function Rounds(m: nat, n: nat): nat
    requires 0 < n
  {
    if m < n then 0 else 1 + Rounds(m - n, n)
  }

  /** Over a run of any length every agent is picked the same number of times,
      give or take one. */
  lemma {:induction false} PicksAreBalanced(ids: set<int>, last: int, ps: seq<int>, x: int)
    requires IsPickRun(ids, last, ps) && x in ids
    ensures Rounds(|ps|, |ids|) <= multiset(ps)[x] <= Rounds(|ps|, |ids|) + 1
    decreases |ps|
  {
    var n := |ids|;
    if |ps| < n {
      ShortRunsAreDistinct(ids, last, ps);
      DistinctCounts(ps);
    } else {
      PickRunSplits(ids, last, ps, n);
      RoundIsPermutation(ids, last, ps[..n]);
      PicksAreBalanced(ids, ps[n - 1], ps[n..], x);
      assert ps == ps[..n] + ps[n..];
    }
  }

  /** Two agents are never more than one pick apart. */
  lemma PickCountsDifferByAtMostOne(ids: set<int>, last: int, ps: seq<int>, x: int, y: int)
    requires IsPickRun(ids, last, ps) && x in ids && y in ids
    ensures multiset(ps)[x] <= multiset(ps)[y] + 1
  {
    PicksAreBalanced(ids, last, ps, x);
    PicksAreBalanced(ids, last, ps, y);
  }
}
