/** Fixed-window rate limiting: a bucket per key, reset lazily when a request
    falls into a new aligned window, and deleted by a background cleanup. */
module RateLimiting {
  import opened Clock
  import opened Sets

  const KEEP := 10 * MINUTE

  datatype Bucket = Bucket(window: int, count: int)

  /** One request against the buckets: the new buckets and the answer. */
  function Admit(m: map<string, Bucket>, key: string, max: int, window: int, now: int): (map<string, Bucket>, bool) {
    var current := Truncate(now, window);
    if key !in m || m[key].window != current then (m[key := Bucket(current, 1)], true)
    else if m[key].count >= max then (m, false)
    else (m[key := Bucket(current, m[key].count + 1)], true)
  }

  /** One cleanup: buckets whose window began more than KEEP ago go. */
  function Clean(m: map<string, Bucket>, now: int): map<string, Bucket> {
    map key | key in m && now - m[key].window <= KEEP :: m[key]
  }

  lemma CleanMeaning(before: map<string, Bucket>, after: map<string, Bucket>, now: int)
    requires forall k :: k in after <==> k in before && now - before[k].window <= KEEP
    requires forall k :: k in after ==> after[k] == before[k]
    ensures after == Clean(before, now)
  {
  }

  class Cell {
    var window: int
    var count: int

    constructor (window: int)
      ensures this.window == window && count == 1
    {
      this.window, count := window, 1;
    }
  }

  class RateLimiter {
    var buckets: map<string, Cell>

    /** Every key has a cell of its own. */
    ghost predicate Valid()
      reads this
    {
      forall j, k :: j in buckets && k in buckets && j != k ==> buckets[j] != buckets[k]
    }

    ghost function Cells(): set<Cell>
      reads this
    {
      set k | k in buckets :: buckets[k]
    }

    ghost function View(): map<string, Bucket>
      reads this, Cells()
    {
      map k | k in buckets :: Bucket(buckets[k].window, buckets[k].count)
    }

    constructor ()
      ensures Valid() && View() == map[]
    {
      buckets := map[];
    }

    method Allow(key: string, max: int, window: int, now: int) returns (ok: bool)
      requires Valid()
      modifies this, Cells()
      ensures Valid() && fresh(Cells() - old(Cells()))
      ensures View() == Admit(old(View()), key, max, window, now).0
      ensures ok == Admit(old(View()), key, max, window, now).1
    {
      hide Truncate;
      var current := Truncate(now, window);
      if key !in buckets || buckets[key].window != current {
        var cell := new Cell(current);
        buckets := buckets[key := cell];
        assert View() == old(View())[key := Bucket(current, 1)];
        return true;
      }
      var b := buckets[key];
      if b.count >= max {
        return false;
      }
      b.count := b.count + 1;
      ok := true;
    }

    method Cleanup(now: int)
      requires Valid()
      modifies this
      ensures Valid() && Cells() <= old(Cells())
      ensures View() == Clean(old(View()), now)
      ensures forall k :: k in buckets <==> k in old(buckets) && now - old(buckets[k].window) <= 600_000_000_000
      ensures forall k :: k in buckets ==> buckets[k] == old(buckets[k])
    {
      hide Clean;
      var all, rest := buckets, buckets.Keys;
      while rest != {}
        invariant rest <= all.Keys
        invariant forall k :: k in buckets <==> k in all && (k in rest || now - all[k].window <= KEEP)
        invariant forall k :: k in buckets ==> buckets[k] == all[k]
        invariant unchanged(old(Cells()))
        decreases rest
      {
        ghost var some := Element(rest);
        var k :| k in rest;
        if now - buckets[k].window > KEEP {
          buckets := buckets - {k};
        }
        rest := rest - {k};
      }
      assert forall k :: k in buckets <==> k in all && now - all[k].window <= KEEP;
      ghost var before, after := old(View()), View();
      assert forall k :: k in all ==> before[k] == Bucket(all[k].window, all[k].count);
      CleanMeaning(before, after, now);
    }
  }

}

/** Whole runs of the limiter.  Operations are listed in the order in which they
    enter the critical section; each carries the clock reading it acts on. */
module RateLimitRuns {
  import opened Basics
  import opened Clock
  import opened RateLimiting

  datatype Request = Request(key: string, max: int, window: int, now: int)

  datatype Op = Ask(r: Request) | Cleanup(now: int)

  function Step(m: map<string, Bucket>, r: Request): (map<string, Bucket>, bool) {
    Admit(m, r.key, r.max, r.window, r.now)
  }

  /** The answers given when nothing is ever cleaned up. */
  function Answers(m: map<string, Bucket>, rs: seq<Request>): seq<bool>
    decreases |rs|
  {
    if rs == [] then [] else [Step(m, rs[0]).1] + Answers(Step(m, rs[0]).0, rs[1..])
  }

  /** The answers given with cleanups in between. */
  function CleanedAnswers(m: map<string, Bucket>, ops: seq<Op>): seq<bool>
    decreases |ops|
  {
    if ops == [] then []
    else match ops[0]
      case Ask(r) => [Step(m, r).1] + CleanedAnswers(Step(m, r).0, ops[1..])
      case Cleanup(now) => CleanedAnswers(Clean(m, now), ops[1..])
  }

  function Requests(ops: seq<Op>): seq<Request> {
    if ops == [] then [] else (if ops[0].Ask? then [ops[0].r] else []) + Requests(ops[1..])
  }

  // Cleanup is unobservable.

  /** The clock ticks in nanoseconds, so an unaligned window is one tick wide. */
  function Width(window: int): int { if 0 < window then window else 1 }

  /** The clock of a request may lag behind an earlier cleanup by at most what
      its window leaves of KEEP plus one tick. */
  predicate LagAllowed(cleanup: int, r: Request) {
    cleanup - r.now <= KEEP + 1 - Width(r.window)
  }

  predicate LagsAllowed(ops: seq<Op>) {
    forall i, j :: 0 <= i < j < |ops| && ops[i].Cleanup? && ops[j].Ask? ==> LagAllowed(ops[i].now, ops[j].r)
  }

  /** No request still to come falls into the window that began at w. */
  predicate Over(w: int, ops: seq<Op>) {
    forall op :: op in ops && op.Ask? ==> w + Width(op.r.window) <= op.r.now
  }

  /** The cleaned map agrees with the full one except for buckets that are over. */
  ghost predicate Agree(cleaned: map<string, Bucket>, full: map<string, Bucket>, ops: seq<Op>) {
    && (forall k :: k in cleaned ==> k in full && cleaned[k] == full[k])
    && (forall k :: k in full && k !in cleaned ==> Over(full[k].window, ops))
  }

  lemma AskKeepsAgreement(cleaned: map<string, Bucket>, full: map<string, Bucket>, ops: seq<Op>)
    requires ops != [] && ops[0].Ask? && Agree(cleaned, full, ops)
    ensures Step(cleaned, ops[0].r).1 == Step(full, ops[0].r).1
    ensures Agree(Step(cleaned, ops[0].r).0, Step(full, ops[0].r).0, ops[1..])
  {
    var r := ops[0].r;
    if r.key in full && r.key !in cleaned {
      assert ops[0] in ops;
      if 0 < r.window { TruncateBounds(r.now, r.window); }
      assert full[r.key].window != Truncate(r.now, r.window);
    }
  }

  lemma CleanupKeepsAgreement(cleaned: map<string, Bucket>, full: map<string, Bucket>, ops: seq<Op>)
    requires ops != [] && ops[0].Cleanup? && LagsAllowed(ops) && Agree(cleaned, full, ops)
    ensures Agree(Clean(cleaned, ops[0].now), full, ops[1..])
  {
    var now := ops[0].now;
    forall k | k in full && k !in Clean(cleaned, now) ensures Over(full[k].window, ops[1..]) {
      forall op | op in ops[1..] && op.Ask?
        ensures full[k].window + Width(op.r.window) <= op.r.now
      {
        var j :| 0 <= j < |ops[1..]| && ops[1..][j] == op;
        assert ops[j + 1] == op && op in ops;
        assert k in cleaned ==> LagAllowed(now, op.r) && KEEP < now - full[k].window;
      }
    }
  }

  lemma {:induction false} AgreeingAnswers(cleaned: map<string, Bucket>, full: map<string, Bucket>, ops: seq<Op>)
    requires LagsAllowed(ops) && Agree(cleaned, full, ops)
    ensures CleanedAnswers(cleaned, ops) == Answers(full, Requests(ops))
    decreases |ops|
  {
    if ops != [] {
      var rest := ops[1..];
      if ops[0].Ask? {
        AskKeepsAgreement(cleaned, full, ops);
        AgreeingAnswers(Step(cleaned, ops[0].r).0, Step(full, ops[0].r).0, rest);
        assert Requests(ops)[0] == ops[0].r && Requests(ops)[1..] == Requests(rest);
      } else {
        CleanupKeepsAgreement(cleaned, full, ops);
        AgreeingAnswers(Clean(cleaned, ops[0].now), full, rest);
        assert Requests(ops) == Requests(rest);
      }
    }
  }

  /** Cleanups at any moments change no answer, as long as no request lags
      behind an earlier cleanup by more than LagAllowed. */
  lemma CleanupIsUnobservable(ops: seq<Op>)
    requires LagsAllowed(ops)
    ensures CleanedAnswers(map[], ops) == Answers(map[], Requests(ops))
  {
    AgreeingAnswers(map[], map[], ops);
  }

  /** No request's clock lags behind an earlier cleanup's by more than lag. */
  predicate LagAtMost(ops: seq<Op>, lag: int) {
    forall i, j :: 0 <= i < j < |ops| && ops[i].Cleanup? && ops[j].Ask? ==> ops[i].now - ops[j].r.now <= lag
  }

  predicate AllWindowsAre(ops: seq<Op>, d: int) {
    forall op :: op in ops && op.Ask? ==> op.r.window == d
  }

  predicate Unnoticed(ops: seq<Op>) {
    CleanedAnswers(map[], ops) == Answers(map[], Requests(ops))
  }

  /** How long windows may be, and how far clocks may lag, for cleanup to stay
      unnoticed: together as long as buckets are kept, and one tick. */
  lemma CleanupIsUnobservableIff(d: int, lag: nat)
    ensures lag + Width(d) <= 600_000_000_001 <==>
            forall ops: seq<Op> :: LagAtMost(ops, lag) && AllWindowsAre(ops, d) ==> Unnoticed(ops)
  {
    if lag + Width(d) <= KEEP + 1 {
      forall ops: seq<Op> | LagAtMost(ops, lag) && AllWindowsAre(ops, d) ensures Unnoticed(ops) {
        forall i, j | 0 <= i < j < |ops| && ops[i].Cleanup? && ops[j].Ask?
          ensures LagAllowed(ops[i].now, ops[j].r)
        {
          assert ops[j] in ops;
        }
        CleanupIsUnobservable(ops);
      }
    } else {
      if 0 < d { TruncateAligned(0, d); }
      var ops := ForgetfulRun(d, lag, Truncate(0, d));
    }
  }

  /** In particular with a clock that never goes back. */
  predicate InClockOrder(ops: seq<Op>) {
    forall i, j :: 0 <= i < j < |ops| ==> ActsAt(ops[i]) <= ActsAt(ops[j])
  }

  function ActsAt(op: Op): int { if op.Ask? then op.r.now else op.now }

  lemma CleanupIsUnobservableInOrderIff(d: int)
    ensures Width(d) <= 600_000_000_001 <==>
            forall ops: seq<Op> :: InClockOrder(ops) && AllWindowsAre(ops, d) ==> Unnoticed(ops)
  {
    if Width(d) <= KEEP + 1 {
      CleanupIsUnobservableIff(d, 0);
      forall ops: seq<Op> | InClockOrder(ops) && AllWindowsAre(ops, d) ensures Unnoticed(ops) {
        forall i, j | 0 <= i < j < |ops| && ops[i].Cleanup? && ops[j].Ask? ensures ops[i].now - ops[j].r.now <= 0 {
          assert ActsAt(ops[i]) <= ActsAt(ops[j]);
        }
        assert LagAtMost(ops, 0);
      }
    } else {
      TruncateAligned(0, d);
      var ops := ForgetfulRun(d, 0, Truncate(0, d));
    }
  }

  function Max(a: int, b: int): int { if a < b then b else a }

  /** Two requests of one window, with a cleanup between them that has already
      forgotten the first; the window may be any aligned one. */
  lemma ForgetfulRun(d: int, lag: nat, w: int) returns (ops: seq<Op>)
    requires KEEP + 1 < lag + Width(d) && Truncate(w, d) == w
    ensures LagAtMost(ops, lag) && AllWindowsAre(ops, d) && (lag == 0 ==> InClockOrder(ops))
    ensures !Unnoticed(ops)
  {
    var c := w + KEEP + 1;
    var late := Max(w, c - lag);
    var first, second := Request("k", 1, d, w), Request("k", 1, d, late);
    if 0 < d { TruncateUnique(late, w, d); }
    assert Truncate(late, d) == w;
    ops := [Ask(first), Cleanup(c), Ask(second)];
    ThreeSteps(first, c, second, w);
  }

  lemma ThreeSteps(first: Request, c: int, second: Request, w: int)
    requires first.key == second.key && first.max == second.max == 1
    requires Truncate(first.now, first.window) == w == Truncate(second.now, second.window) && KEEP < c - w
    ensures !Unnoticed([Ask(first), Cleanup(c), Ask(second)])
  {
    var one := map[first.key := Bucket(w, 1)];
    var ops := [Ask(first), Cleanup(c), Ask(second)];
    assert Step(map[], first) == (one, true) && Step(one, second) == (one, false) && Step(map[], second).1;
    assert Clean(one, c) == map[];
    var tail, last := [Cleanup(c), Ask(second)], [Ask(second)];
    assert ops[1..] == tail && tail[1..] == last && last[1..] == [];
    assert Requests(last) == [second] && Requests(tail) == [second];
    assert Requests(ops) == [first, second] && [first, second][1..] == [second];
    assert Answers(one, [second]) == [false];
    assert CleanedAnswers(map[], last) == [true];
    assert CleanedAnswers(one, tail) == CleanedAnswers(Clean(one, c), tail[1..]) == [true];
    assert Answers(map[], [first, second]) == [true] + [false];
    assert CleanedAnswers(map[], ops) == [true] + [true];
    assert ([true] + [true])[1] != ([true] + [false])[1];
  }

  // How much a key is granted.  Requests may enter the lock in another order
  // than they read the clock, so the windows of a key need not come in order.

  function WindowOf(r: Request): int { Truncate(r.now, r.window) }

  predicate InWindow(r: Request, key: string, w: int) {
    r.key == key && WindowOf(r) == w
  }

  /** The requests of key that fall into the aligned window starting at w. */
  function Asked(rs: seq<Request>, key: string, w: int): nat {
    if rs == [] then 0
    else (if InWindow(rs[0], key, w) then 1 else 0) + Asked(rs[1..], key, w)
  }

  /** Those of them that were answered yes. */
  function Granted(rs: seq<Request>, answers: seq<bool>, key: string, w: int): nat
    requires |answers| == |rs|
  {
    if rs == [] then 0
    else (if InWindow(rs[0], key, w) && answers[0] then 1 else 0) + Granted(rs[1..], answers[1..], key, w)
  }

  lemma {:induction false} OneAnswerEach(m: map<string, Bucket>, rs: seq<Request>)
    ensures |Answers(m, rs)| == |rs|
    decreases |rs|
  {
    if rs != [] { OneAnswerEach(Step(m, rs[0]).0, rs[1..]); }
  }

  /** The key is always used with the same limit and window. */
  predicate Fixed(rs: seq<Request>, key: string, max: int, d: int) {
    0 < d && forall i :: 0 <= i < |rs| && rs[i].key == key ==> rs[i].max == max && rs[i].window == d
  }

  /** The limit in force: a new window admits its first request unchecked. */
  function Limit(max: int): nat { if 1 <= max then max else 1 }

  function After(m: map<string, Bucket>, rs: seq<Request>): map<string, Bucket>
    decreases |rs|
  {
    if rs == [] then m else After(Step(m, rs[0]).0, rs[1..])
  }

  lemma {:induction false} AnswersOfConcat(m: map<string, Bucket>, a: seq<Request>, b: seq<Request>)
    ensures Answers(m, a + b) == Answers(m, a) + Answers(After(m, a), b)
    decreases |a|
  {
    if a == [] {
      assert a + b == b;
    } else {
      assert (a + b)[1..] == a[1..] + b;
      AnswersOfConcat(Step(m, a[0]).0, a[1..], b);
    }
  }

  lemma {:induction false} GrantedOfConcat(a: seq<Request>, xs: seq<bool>, b: seq<Request>, ys: seq<bool>,
                                           key: string, w: int)
    requires |xs| == |a| && |ys| == |b|
    ensures Granted(a + b, xs + ys, key, w) == Granted(a, xs, key, w) + Granted(b, ys, key, w)
  {
    if a == [] {
      assert a + b == b && xs + ys == ys;
    } else {
      assert (a + b)[1..] == a[1..] + b && (xs + ys)[1..] == xs[1..] + ys;
      GrantedOfConcat(a[1..], xs[1..], b, ys, key, w);
    }
  }

  /** The window of the last request of key, if it has made one. */
  function LastWindow(rs: seq<Request>, key: string): Option<int> {
    if rs == [] then None
    else if rs[|rs| - 1].key == key then Some(WindowOf(rs[|rs| - 1]))
    else LastWindow(rs[..|rs| - 1], key)
  }

  lemma {:induction false} AfterSnoc(m: map<string, Bucket>, rs: seq<Request>, r: Request)
    ensures After(m, rs + [r]) == Step(After(m, rs), r).0
    decreases |rs|
  {
    if rs == [] {
      assert ([] + [r])[1..] == [];
    } else {
      assert (rs + [r])[1..] == rs[1..] + [r];
      AfterSnoc(Step(m, rs[0]).0, rs[1..], r);
    }
  }

  /** The bucket of a key belongs to the window it was last used in. */
  lemma {:induction false} BucketOfLastWindow(rs: seq<Request>, key: string)
    ensures var m := After(map[], rs);
            LastWindow(rs, key) == if key in m then Some(m[key].window) else None
    ensures key in After(map[], rs) ==> 1 <= After(map[], rs)[key].count
  {
    if rs != [] {
      var front, r := rs[..|rs| - 1], rs[|rs| - 1];
      assert rs == front + [r];
      AfterSnoc(map[], front, r);
      BucketOfLastWindow(front, key);
      hide Truncate;
    }
  }

  /** What the bucket of key leaves of window w. */
  function Left(m: map<string, Bucket>, key: string, max: int, w: int): nat {
    if key in m && m[key].window == w then Limit(max) - Min(Limit(max), if 0 <= m[key].count then m[key].count else 0)
    else Limit(max)
  }

  predicate StaysIn(rs: seq<Request>, key: string, w: int) {
    forall i :: 0 <= i < |rs| && rs[i].key == key ==> WindowOf(rs[i]) == w
  }

  lemma {:induction false} StretchIsGranted(m: map<string, Bucket>, rs: seq<Request>, key: string, max: int, d: int,
                                            w: int)
    requires Fixed(rs, key, max, d) && StaysIn(rs, key, w) && (key in m ==> 1 <= m[key].count)
    ensures |Answers(m, rs)| == |rs|
    ensures Granted(rs, Answers(m, rs), key, w) == Min(Left(m, key, max, w), Asked(rs, key, w))
    decreases |rs|
  {
    hide Truncate;
    OneAnswerEach(m, rs);
    if rs != [] {
      var m', rest := Step(m, rs[0]).0, rs[1..];
      assert forall i :: 0 <= i < |rest| ==> rest[i] == rs[i + 1];
      StretchIsGranted(m', rest, key, max, d, w);
      assert Answers(m, rs)[1..] == Answers(m', rest);
    }
  }

  /** A visit of a key to a window, that is, a stretch of requests all of whose
      requests of the key fall into the window while the last one before it did
      not: it is granted exactly its limit, or all it asks for. */
  lemma VisitGrantsItsLimit(before: seq<Request>, visit: seq<Request>, later: seq<Request>,
                            key: string, max: int, d: int, w: int)
    requires Fixed(visit, key, max, d) && StaysIn(visit, key, w) && LastWindow(before, key) != Some(w)
    ensures var answers := Answers(map[], before + visit + later);
            && |answers| == |before| + |visit| + |later|
            && Granted(visit, answers[|before|..|before| + |visit|], key, w)
                 == Min(if 1 <= max then max else 1, Asked(visit, key, w))
  {
    var m := After(map[], before);
    OneAnswerEach(map[], before + visit + later);
    OneAnswerEach(map[], before);
    OneAnswerEach(m, visit);
    AnswersOfConcat(map[], before, visit);
    AnswersOfConcat(map[], before + visit, later);
    BucketOfLastWindow(before, key);
    StretchIsGranted(m, visit, key, max, d, w);
    assert Answers(map[], before + visit + later)[|before|..|before| + |visit|] == Answers(m, visit);
  }

  /** At k, key is back in the window it was in at i and not in at j. */
  predicate Returns(rs: seq<Request>, key: string, i: int, j: int, k: int) {
    && 0 <= i < j < k < |rs| && rs[i].key == key && rs[j].key == key && rs[k].key == key
    && WindowOf(rs[i]) == WindowOf(rs[k]) != WindowOf(rs[j])
  }

  /** No window of key is returned to once it has been left for another. */
  ghost predicate NoReturn(rs: seq<Request>, key: string) {
    forall i, j, k :: !Returns(rs, key, i, j, k)
  }

  /** So it is whenever requests enter the lock in the order of their readings,
      or at least never fall back to an earlier window. */
  lemma InOrderNeverReturns(rs: seq<Request>, key: string, d: int)
    requires 0 < d && forall i :: 0 <= i < |rs| && rs[i].key == key ==> rs[i].window == d
    requires forall i, j :: 0 <= i < j < |rs| && rs[i].key == key && rs[j].key == key ==>
               rs[i].now <= rs[j].now || WindowOf(rs[i]) <= WindowOf(rs[j])
    ensures NoReturn(rs, key)
  {
    forall i, j | 0 <= i < j < |rs| && rs[i].key == key && rs[j].key == key
      ensures WindowOf(rs[i]) <= WindowOf(rs[j])
    {
      if rs[i].now <= rs[j].now { TruncateMonotone(rs[i].now, rs[j].now, d); }
    }
  }

  lemma {:induction false} NoneAsked(rs: seq<Request>, answers: seq<bool>, key: string, w: int)
    requires |answers| == |rs| && forall i :: 0 <= i < |rs| ==> !InWindow(rs[i], key, w)
    ensures Asked(rs, key, w) == 0 && Granted(rs, answers, key, w) == 0
  {
    if rs != [] { NoneAsked(rs[1..], answers[1..], key, w); }
  }

  lemma {:induction false} AskedOfConcat(a: seq<Request>, b: seq<Request>, key: string, w: int)
    ensures Asked(a + b, key, w) == Asked(a, key, w) + Asked(b, key, w)
  {
    if a == [] {
      assert a + b == b;
    } else {
      assert (a + b)[1..] == a[1..] + b;
      AskedOfConcat(a[1..], b, key, w);
    }
  }

  lemma {:induction false} LastWindowFound(rs: seq<Request>, key: string)
    ensures match LastWindow(rs, key)
            case None => forall i :: 0 <= i < |rs| ==> rs[i].key != key
            case Some(w) => exists i :: 0 <= i < |rs| && InWindow(rs[i], key, w)
                                     && forall k :: i < k < |rs| ==> rs[k].key != key
  {
    if rs != [] {
      var n := |rs| - 1;
      LastWindowFound(rs[..n], key);
      hide WindowOf;
      if rs[n].key == key {
        assert InWindow(rs[n], key, WindowOf(rs[n]));
      } else if LastWindow(rs, key).Some? {
        var w := LastWindow(rs, key).value;
        var i :| 0 <= i < n && InWindow(rs[..n][i], key, w) && forall k :: i < k < n ==> rs[..n][k].key != key;
        hide InWindow;
        assert InWindow(rs[i], key, w);
        forall k | i < k < |rs| ensures rs[k].key != key {
          assert k < n ==> rs[k] == rs[..n][k];
        }
      }
    }
  }

  /** The first position at or after from whose request key makes in window w. */
  function Next(rs: seq<Request>, key: string, w: int, from: nat): (i: nat)
    requires from <= |rs|
    ensures from <= i <= |rs| && (i < |rs| ==> InWindow(rs[i], key, w))
    ensures forall k :: from <= k < i ==> !InWindow(rs[k], key, w)
    decreases |rs| - from
  {
    if from == |rs| || InWindow(rs[from], key, w) then from else Next(rs, key, w, from + 1)
  }

  /** One past the last such position. */
  function PastLast(rs: seq<Request>, key: string, w: int, until: nat): (i: nat)
    requires until <= |rs|
    ensures i <= until && (0 < i ==> InWindow(rs[i - 1], key, w))
    ensures forall k :: i <= k < until ==> !InWindow(rs[k], key, w)
  {
    if until == 0 || InWindow(rs[until - 1], key, w) then until else PastLast(rs, key, w, until - 1)
  }

  /** If no window is returned to, each grants exactly the first Limit(max) of
      its requests. */
  lemma WindowGrantsItsLimit(rs: seq<Request>, key: string, max: int, d: int, w: int)
    requires Fixed(rs, key, max, d) && NoReturn(rs, key)
    ensures |Answers(map[], rs)| == |rs|
    ensures Granted(rs, Answers(map[], rs), key, w) == Min(Limit(max), Asked(rs, key, w))
  {
    hide Truncate, Limit;
    var answers := Answers(map[], rs);
    OneAnswerEach(map[], rs);
    var i, j := Next(rs, key, w, 0), PastLast(rs, key, w, |rs|);
    if i == |rs| {
      NoneAsked(rs, answers, key, w);
    } else {
      assert i < j;
      OnlyVisit(rs, key, w, i, j);
      OneVisit(rs, key, max, d, w, i, j);
    }
  }

  lemma OnlyVisit(rs: seq<Request>, key: string, w: int, i: nat, j: nat)
    requires NoReturn(rs, key)
    requires i < j <= |rs| && InWindow(rs[i], key, w) && InWindow(rs[j - 1], key, w)
    requires forall k :: 0 <= k < i || j <= k < |rs| ==> !InWindow(rs[k], key, w)
    ensures StaysIn(rs[i..j], key, w) && LastWindow(rs[..i], key) != Some(w)
  {
    hide Truncate;
    forall k | 0 <= k < j - i && rs[i..j][k].key == key ensures WindowOf(rs[i..j][k]) == w {
      assert rs[i..j][k] == rs[i + k] && !Returns(rs, key, i, i + k, j - 1);
    }
    LastWindowFound(rs[..i], key);
  }

  lemma OneVisit(rs: seq<Request>, key: string, max: int, d: int, w: int, i: nat, j: nat)
    requires Fixed(rs, key, max, d) && i <= j <= |rs|
    requires forall k :: 0 <= k < i || j <= k < |rs| ==> !InWindow(rs[k], key, w)
    requires StaysIn(rs[i..j], key, w) && LastWindow(rs[..i], key) != Some(w)
    ensures |Answers(map[], rs)| == |rs|
    ensures Granted(rs, Answers(map[], rs), key, w) == Min(Limit(max), Asked(rs, key, w))
  {
    hide Truncate, WindowOf, Granted, Asked, Answers, StaysIn, LastWindow, InWindow;
    var answers := Answers(map[], rs);
    OneAnswerEach(map[], rs);
    var before, visit, later := rs[..i], rs[i..j], rs[j..];
    assert rs == before + visit + later;
    VisitGrantsItsLimit(before, visit, later, key, max, d, w);
    NoneAsked(before, answers[..i], key, w);
    NoneAsked(later, answers[j..], key, w);
    CountsOfThree(before, answers[..i], visit, answers[i..j], later, answers[j..], key, w);
    assert answers == answers[..i] + answers[i..j] + answers[j..];
  }

  lemma CountsOfThree(a: seq<Request>, xs: seq<bool>, b: seq<Request>, ys: seq<bool>, c: seq<Request>, zs: seq<bool>,
                      key: string, w: int)
    requires |xs| == |a| && |ys| == |b| && |zs| == |c|
    ensures Asked(a + b + c, key, w) == Asked(a, key, w) + Asked(b, key, w) + Asked(c, key, w)
    ensures Granted(a + b + c, xs + ys + zs, key, w)
              == Granted(a, xs, key, w) + Granted(b, ys, key, w) + Granted(c, zs, key, w)
  {
    hide Granted, Asked;
    AskedOfConcat(a + b, c, key, w);
    AskedOfConcat(a, b, key, w);
    GrantedOfConcat(a + b, xs + ys, c, zs, key, w);
    GrantedOfConcat(a, xs, b, ys, key, w);
  }

  // Exactly when windows keep within their limits.

  predicate SameWidth(rs: seq<Request>, key: string, d: int) {
    0 < d && forall i :: 0 <= i < |rs| && rs[i].key == key ==> rs[i].window == d
  }

  /** The same requests with another limit for key. */
  function WithMax(rs: seq<Request>, key: string, max: int): seq<Request> {
    seq(|rs|, i requires 0 <= i < |rs| => if rs[i].key == key then rs[i].(max := max) else rs[i])
  }

  ghost predicate KeepsWithin(rs: seq<Request>, key: string, max: int, w: int) {
    && |Answers(map[], rs)| == |rs|
    && Granted(rs, Answers(map[], rs), key, w) <= max
  }

  /** A request that enters another window than the key's last is granted. */
  lemma EntranceIsGranted(rs: seq<Request>, key: string, max: int, d: int, i: nat)
    requires Fixed(rs, key, max, d) && i < |rs| && rs[i].key == key
    requires LastWindow(rs[..i], key) != Some(WindowOf(rs[i]))
    ensures |Answers(map[], rs)| == |rs| && Answers(map[], rs)[i]
  {
    hide Truncate;
    var visit := [rs[i]];
    assert rs == rs[..i] + visit + rs[i + 1..];
    VisitGrantsItsLimit(rs[..i], visit, rs[i + 1..], key, max, d, WindowOf(rs[i]));
    assert visit[1..] == [];
  }

  /** A window that is used at k but was not in use before lo is entered between. */
  lemma {:induction false} Entrance(rs: seq<Request>, key: string, w: int, lo: nat, k: nat) returns (i: nat)
    requires lo <= k < |rs| && InWindow(rs[k], key, w) && LastWindow(rs[..lo], key) != Some(w)
    ensures lo <= i <= k && InWindow(rs[i], key, w) && LastWindow(rs[..i], key) != Some(w)
    decreases k
  {
    hide Truncate;
    i := k;
    if LastWindow(rs[..k], key) == Some(w) {
      LastWindowFound(rs[..k], key);
      var p :| 0 <= p < k && InWindow(rs[..k][p], key, w) && forall q :: p < q < k ==> rs[..k][q].key != key;
      if p < lo {
        assert forall q :: p < q < lo ==> rs[..lo][q] == rs[..k][q];
        StillLast(rs[..lo], key, w, p);
      }
      i := Entrance(rs, key, w, lo, p);
    }
  }

  lemma {:induction false} StillLast(rs: seq<Request>, key: string, w: int, p: nat)
    requires p < |rs| && InWindow(rs[p], key, w) && forall q :: p < q < |rs| ==> rs[q].key != key
    ensures LastWindow(rs, key) == Some(w)
  {
    if p < |rs| - 1 { StillLast(rs[..|rs| - 1], key, w, p); }
  }

  lemma {:induction false} OneGranted(rs: seq<Request>, answers: seq<bool>, key: string, w: int, i: nat)
    requires |answers| == |rs| && i < |rs| && InWindow(rs[i], key, w) && answers[i]
    ensures 1 <= Granted(rs, answers, key, w)
  {
    if i > 0 { OneGranted(rs[1..], answers[1..], key, w, i - 1); }
  }

  lemma TwoGranted(rs: seq<Request>, answers: seq<bool>, key: string, w: int, i: nat, k: nat)
    requires |answers| == |rs| && i < k < |rs| && answers[i] && answers[k]
    requires InWindow(rs[i], key, w) && InWindow(rs[k], key, w)
    ensures 2 <= Granted(rs, answers, key, w)
  {
    hide Granted, Truncate;
    OneGranted(rs[..k], answers[..k], key, w, i);
    OneGranted(rs[k..], answers[k..], key, w, 0);
    assert rs == rs[..k] + rs[k..] && answers == answers[..k] + answers[k..];
    GrantedOfConcat(rs[..k], answers[..k], rs[k..], answers[k..], key, w);
  }

  /** A window that is returned to grants a limit of one twice. */
  lemma ReturnGrantsTwice(rs: seq<Request>, key: string, d: int, i: nat, j: nat, k: nat)
    requires Fixed(rs, key, 1, d) && i < j < k < |rs| && rs[j].key == key
    requires InWindow(rs[i], key, WindowOf(rs[k])) && rs[k].key == key && WindowOf(rs[j]) != WindowOf(rs[k])
    ensures |Answers(map[], rs)| == |rs| && 2 <= Granted(rs, Answers(map[], rs), key, WindowOf(rs[k]))
  {
    hide Truncate;
    var w := WindowOf(rs[k]);
    var first := Entrance(rs, key, w, 0, i);
    assert rs[..j + 1][..j] == rs[..j] && LastWindow(rs[..j + 1], key) == Some(WindowOf(rs[j]));
    var again := Entrance(rs, key, w, j + 1, k);
    EntranceIsGranted(rs, key, 1, d, first);
    EntranceIsGranted(rs, key, 1, d, again);
    TwoGranted(rs, Answers(map[], rs), key, w, first, again);
  }

  lemma OtherLimit(rs: seq<Request>, key: string, max: int, d: int)
    requires SameWidth(rs, key, d)
    ensures |WithMax(rs, key, max)| == |rs| && Fixed(WithMax(rs, key, max), key, max, d)
    ensures forall i :: 0 <= i < |rs| ==>
              WithMax(rs, key, max)[i].key == rs[i].key && WindowOf(WithMax(rs, key, max)[i]) == WindowOf(rs[i])
  {
    hide Truncate;
  }

  lemma NoReturnKeepsWithin(rs: seq<Request>, key: string, max: int, d: int, w: int)
    requires SameWidth(rs, key, d) && NoReturn(rs, key) && 1 <= max
    ensures KeepsWithin(WithMax(rs, key, max), key, max, w)
  {
    OtherLimit(rs, key, max, d);
    hide Truncate, WindowOf, WithMax;
    forall i, j, k ensures !Returns(WithMax(rs, key, max), key, i, j, k) {
      assert !Returns(rs, key, i, j, k);
    }
    WindowGrantsItsLimit(WithMax(rs, key, max), key, max, d, w);
  }

  lemma ReturnDoesNot(rs: seq<Request>, key: string, d: int) returns (w: int)
    requires SameWidth(rs, key, d) && !NoReturn(rs, key)
    ensures !KeepsWithin(WithMax(rs, key, 1), key, 1, w)
  {
    OtherLimit(rs, key, 1, d);
    hide Truncate, WindowOf, WithMax, Granted, Answers, Fixed, SameWidth;
    var i, j, k :| Returns(rs, key, i, j, k);
    w := WindowOf(rs[k]);
    ReturnGrantsTwice(WithMax(rs, key, 1), key, d, i, j, k);
  }

  /** The windows of a key keep within every limit of at least one exactly if no
      window is returned to once left, in whatever order the requests come. */
  lemma AllLimitsHoldIff(rs: seq<Request>, key: string, d: int)
    requires SameWidth(rs, key, d)
    ensures (forall max, w :: 1 <= max ==> KeepsWithin(WithMax(rs, key, max), key, max, w)) <==> NoReturn(rs, key)
  {
    hide Truncate, WindowOf, WithMax, KeepsWithin;
    if NoReturn(rs, key) {
      forall max, w | 1 <= max ensures KeepsWithin(WithMax(rs, key, max), key, max, w) {
        NoReturnKeepsWithin(rs, key, max, d, w);
      }
    } else {
      var w := ReturnDoesNot(rs, key, d);
    }
  }

  /** That happens: a reading one tick old is acted on between two readings at
      the start of a window, which then grants its limit of one twice. */
  lemma LateReading(w: int, d: int)
    requires 0 < d && Truncate(w, d) == w
    ensures var rs := [Request("k", 1, d, w + d), Request("k", 1, d, w + d - 1), Request("k", 1, d, w + d)];
            |Answers(map[], rs)| == |rs| && 2 <= Granted(rs, Answers(map[], rs), "k", w + d)
  {
    var rs := [Request("k", 1, d, w + d), Request("k", 1, d, w + d - 1), Request("k", 1, d, w + d)];
    TruncateAligned(w, d);
    TruncateUnique(w + d - 1, w, d);
    hide Truncate;
    ReturnGrantsTwice(rs, "k", d, 0, 1, 2);
  }

  // How much an interval grants.

  /** Requests of key granted at a time in [from, from + d). */
  function GrantedDuring(rs: seq<Request>, answers: seq<bool>, key: string, from: int, d: int): nat
    requires |answers| == |rs|
  {
    if rs == [] then 0
    else (if rs[0].key == key && from <= rs[0].now < from + d && answers[0] then 1 else 0)
         + GrantedDuring(rs[1..], answers[1..], key, from, d)
  }

  /** How often key comes to window w, having last been in window last. */
  function Visits(rs: seq<Request>, key: string, w: int, last: Option<int>): nat
    decreases |rs|
  {
    if rs == [] then 0
    else if rs[0].key != key then Visits(rs[1..], key, w, last)
    else (if WindowOf(rs[0]) == w && last != Some(w) then 1 else 0) + Visits(rs[1..], key, w, Some(WindowOf(rs[0])))
  }

  lemma TimesLimit(v: nat, limit: nat)
    ensures (v + 1) * limit == v * limit + limit
  {
  }

  /** What is left of window w if key is in it. */
  function LeftNow(m: map<string, Bucket>, key: string, max: int, w: int): nat {
    if key in m && m[key].window == w then Left(m, key, max, w) else 0
  }

  lemma {:induction false} GrantedPerVisit(m: map<string, Bucket>, rs: seq<Request>, key: string, max: int, d: int,
                                           w: int,
                                           last: Option<int>)
    requires Fixed(rs, key, max, d) && (key in m ==> 1 <= m[key].count)
    requires last == if key in m then Some(m[key].window) else None
    ensures |Answers(m, rs)| == |rs|
    ensures Granted(rs, Answers(m, rs), key, w) <= LeftNow(m, key, max, w) + Visits(rs, key, w, last) * Limit(max)
    decreases |rs|
  {
    hide Truncate;
    OneAnswerEach(m, rs);
    if rs != [] {
      var r, m', rest := rs[0], Step(m, rs[0]).0, rs[1..];
      var last' := if r.key == key then Some(WindowOf(r)) else last;
      GrantedPerVisit(m', rest, key, max, d, w, last');
      assert Answers(m, rs)[1..] == Answers(m', rest);
      TimesLimit(Visits(rest, key, w, last'), Limit(max));
    }
  }

  lemma IntervalMeetsTwoWindows(t: int, from: int, d: int)
    requires 0 < d && from <= t < from + d
    ensures Truncate(t, d) == Truncate(from, d) || Truncate(t, d) == Truncate(from, d) + d
  {
    var w := Truncate(from, d);
    TruncateAligned(from, d);
    TruncateBounds(from, d);
    if t < w + d { TruncateUnique(t, w, d); } else { TruncateUnique(t, w + d, d); }
  }

  lemma {:induction false} IntervalInTwoWindows(rs: seq<Request>, answers: seq<bool>, key: string, from: int, d: int)
    requires |answers| == |rs| && SameWidth(rs, key, d)
    ensures GrantedDuring(rs, answers, key, from, d)
         <= Granted(rs, answers, key, Truncate(from, d)) + Granted(rs, answers, key, Truncate(from, d) + d)
  {
    if rs != [] {
      IntervalInTwoWindows(rs[1..], answers[1..], key, from, d);
      if rs[0].key == key && from <= rs[0].now < from + d { IntervalMeetsTwoWindows(rs[0].now, from, d); }
    }
  }

  /** Over every run, cleanups included, and whatever the order of the readings:
      an interval one window long grants a key its limit once for every visit to
      one of the two windows it meets. */
  lemma RatePerVisit(ops: seq<Op>, key: string, max: int, d: int, from: int)
    requires LagsAllowed(ops) && Fixed(Requests(ops), key, max, d)
    ensures |CleanedAnswers(map[], ops)| == |Requests(ops)|
    ensures GrantedDuring(Requests(ops), CleanedAnswers(map[], ops), key, from, d)
         <= Visits(Requests(ops), key, Truncate(from, d), None) * Limit(max)
            + Visits(Requests(ops), key, Truncate(from, d) + d, None) * Limit(max)
  {
    var rs := Requests(ops);
    CleanupIsUnobservable(ops);
    GrantedPerVisit(map[], rs, key, max, d, Truncate(from, d), None);
    GrantedPerVisit(map[], rs, key, max, d, Truncate(from, d) + d, None);
    IntervalInTwoWindows(rs, Answers(map[], rs), key, from, d);
  }

  /** So it grants at most twice the limit if no window is returned to. */
  lemma RateBound(ops: seq<Op>, key: string, max: int, d: int, from: int)
    requires LagsAllowed(ops) && Fixed(Requests(ops), key, max, d) && NoReturn(Requests(ops), key)
    ensures |CleanedAnswers(map[], ops)| == |Requests(ops)|
    ensures GrantedDuring(Requests(ops), CleanedAnswers(map[], ops), key, from, d) <= 2 * Limit(max)
  {
    var rs := Requests(ops);
    CleanupIsUnobservable(ops);
    WindowGrantsItsLimit(rs, key, max, d, Truncate(from, d));
    WindowGrantsItsLimit(rs, key, max, d, Truncate(from, d) + d);
    IntervalInTwoWindows(rs, Answers(map[], rs), key, from, d);
  }
}
