/** The request log: filtering, ordering and paging. */
module RequestLog {
  import opened Basics
  import opened Rows

  datatype Event = Event(
    id: int, ts: int, userId: int, clientId: int, target: string,
    protocol: string, outcome: string, bytesIn: int, bytesOut: int, durationMs: int)

  datatype Filter = Filter(since: int, userId: int, clientId: int, search: string)

  function Lower(c: char): char {
    if 'A' <= c <= 'Z' then c - 'A' + 'a' else c
  }

  /** SQL's LIKE: % stands for any bytes, _ for one, letters regardless of case. */
  predicate Like(s: string, pattern: string)
    decreases |s| + |pattern|
  {
    if pattern == "" then s == ""
    else if pattern[0] == '%' then Like(s, pattern[1..]) || (s != "" && Like(s[1..], pattern))
    else s != "" && (pattern[0] == '_' || Lower(s[0]) == Lower(pattern[0])) && Like(s[1..], pattern[1..])
  }

  predicate Plain(p: string) { '%' !in p }

  /** The same letter in either case. */
  predicate SameLetter(a: char, b: char) {
    a == b || ('A' <= a <= 'Z' && b as int == a as int + 32) || ('A' <= b <= 'Z' && a as int == b as int + 32)
  }

  /** p occurs in s at position i, letters regardless of case, where an underscore
      in p stands for any character. */
  predicate OccursAt(s: string, p: string, i: nat) {
    i + |p| <= |s| && forall k :: 0 <= k < |p| ==> p[k] == '_' || SameLetter(s[i + k], p[k])
  }

  lemma LowerMeaning(a: char, b: char)
    ensures Lower(a) == Lower(b) <==> SameLetter(a, b)
  {
  }

  lemma {:induction false} AnythingLikePercent(s: string)
    ensures Like(s, "%")
  {
    assert "%"[1..] == "";
    if s != "" { AnythingLikePercent(s[1..]); }
  }

  lemma {:induction false} LikePrefix(s: string, p: string)
    requires Plain(p)
    ensures Like(s, p + "%") <==> OccursAt(s, p, 0)
    decreases |p|
  {
    if p == "" {
      AnythingLikePercent(s);
      assert p + "%" == "%";
    } else {
      assert (p + "%")[0] == p[0] && (p + "%")[1..] == p[1..] + "%";
      if s != "" {
        LikePrefix(s[1..], p[1..]);
        LowerMeaning(s[0], p[0]);
        hide SameLetter, Lower;
        if OccursAt(s, p, 0) {
          forall k | 0 <= k < |p[1..]| ensures p[1..][k] == '_' || SameLetter(s[1..][0 + k], p[1..][k]) {
            assert p[k + 1] == '_' || SameLetter(s[0 + (k + 1)], p[k + 1]);
          }
        }
        if OccursAt(s[1..], p[1..], 0) && (p[0] == '_' || SameLetter(s[0], p[0])) {
          forall k | 0 <= k < |p| ensures p[k] == '_' || SameLetter(s[0 + k], p[k]) {
            if k > 0 { assert p[1..][k - 1] == '_' || SameLetter(s[1..][0 + (k - 1)], p[1..][k - 1]); }
          }
        }
      }
    }
  }

  /** A search text is found wherever it occurs, if it has no % of its own. */
  lemma {:induction false} LikeMeansContains(s: string, p: string)
    requires Plain(p)
    ensures Like(s, "%" + p + "%") <==> exists i: nat :: OccursAt(s, p, i)
    decreases |s|
  {
    var pattern := "%" + p + "%";
    assert pattern[0] == '%' && pattern[1..] == p + "%";
    LikePrefix(s, p);
    if s != "" {
      LikeMeansContains(s[1..], p);
      forall i: nat | OccursAt(s[1..], p, i) ensures OccursAt(s, p, i + 1) {
        forall k | 0 <= k < |p| ensures p[k] == '_' || SameLetter(s[i + 1 + k], p[k]) {
          assert p[k] == '_' || SameLetter(s[1..][i + k], p[k]);
        }
      }
      forall i: nat | OccursAt(s, p, i) && 0 < i ensures OccursAt(s[1..], p, i - 1) {
        forall k | 0 <= k < |p| ensures p[k] == '_' || SameLetter(s[1..][i - 1 + k], p[k]) {
          assert p[k] == '_' || SameLetter(s[i + k], p[k]);
        }
      }
    }
  }

  predicate Matches(e: Event, f: Filter) {
    && f.since <= e.ts
    && (0 < f.userId ==> e.userId == f.userId)
    && (0 < f.clientId ==> e.clientId == f.clientId)
    && (f.search != "" ==> Like(e.target, "%" + f.search + "%"))
  }

  /** What a viewer has asked for: events not older than since, of the user and of
      the client asked for, if any, to targets in which the search text occurs. */
  ghost predicate Wanted(e: Event, f: Filter) {
    && f.since <= e.ts
    && (f.userId <= 0 || f.userId == e.userId)
    && (f.clientId <= 0 || f.clientId == e.clientId)
    && (f.search == "" || !Plain(f.search) || exists i: nat :: OccursAt(e.target, f.search, i))
  }

  lemma MatchesWhatIsWanted(e: Event, f: Filter)
    ensures Matches(e, f) ==> Wanted(e, f)
    ensures Plain(f.search) ==> (Matches(e, f) <==> Wanted(e, f))
  {
    hide Like, OccursAt;
    if Plain(f.search) { LikeMeansContains(e.target, f.search); }
  }

  lemma MatchingIsWanted(events: seq<Event>, f: Filter, e: Event)
    ensures e in Matching(events, f) ==> e in events && Wanted(e, f)
    ensures Plain(f.search) ==> (e in Matching(events, f) <==> e in events && Wanted(e, f))
  {
    hide Wanted;
    KeepMembers(events, (x: Event) => Matches(x, f));
    MatchesWhatIsWanted(e, f);
  }

  /** ORDER BY ts DESC, id DESC. */
  predicate Newer(a: Event, b: Event) {
    b.ts < a.ts || (a.ts == b.ts && b.id < a.id)
  }

  function Insert(e: Event, s: seq<Event>): seq<Event> {
    if s == [] || Newer(e, s[0]) then [e] + s else [s[0]] + Insert(e, s[1..])
  }

  function Ordered(s: seq<Event>): seq<Event> {
    if s == [] then [] else Insert(s[0], Ordered(s[1..]))
  }

  function Matching(events: seq<Event>, f: Filter): seq<Event> {
    Keep(events, (e: Event) => Matches(e, f))
  }

  function Count(events: seq<Event>, f: Filter): nat { |Matching(events, f)| }

  /** LIMIT and OFFSET, with the limits the query accepts. */
  function List(events: seq<Event>, f: Filter, limit: int, offset: int): seq<Event> {
    var n := if 0 < limit <= 1000 then limit else 20;
    var from := if offset < 0 then 0 else offset;
    var all := Ordered(Matching(events, f));
    all[Min(from, |all|)..Min(from + n, |all|)]
  }

  /** Other limits than 1 to 1000 count as 20, and a negative offset as none. */
  lemma OddLimits(events: seq<Event>, f: Filter, limit: int, offset: int)
    ensures limit <= 0 || 1000 < limit ==> List(events, f, limit, offset) == List(events, f, 20, offset)
    ensures offset < 0 ==> List(events, f, limit, offset) == List(events, f, limit, 0)
  {
  }

  const PAGE_SIZE := 20

  function Pages(total: nat): nat {
    if total == 0 then 1 else (total + PAGE_SIZE - 1) / PAGE_SIZE
  }

  function Page(events: seq<Event>, f: Filter, page: int): seq<Event> {
    List(events, f, PAGE_SIZE, (page - 1) * PAGE_SIZE)
  }

  /** The page shown for a requested page number, whatever the number.  The events
      are counted first and listed later, when others may have come in. */
  method GetLogs(events: seq<Event>, later: seq<Event>, f: Filter, requested: int)
      returns (page: int, totalPages: int, total: nat, shown: seq<Event>)
    ensures total == Count(events, f) && totalPages == Pages(total)
    ensures 1 <= page <= totalPages
    ensures page == if requested < 1 then 1 else if totalPages < requested then totalPages else requested
    ensures shown == Page(later, f, page) && |shown| <= 20
    ensures forall e :: e in shown ==> e in later && Wanted(e, f)
    ensures Plain(f.search) && DistinctIds(events) ==> total == |set e | e in events && Wanted(e, f)|
    ensures (page - 1) * PAGE_SIZE <= total && (later == events ==> (shown == [] <==> total == 0))
  {
    hide List, Count, Wanted, DistinctIds, Plain;
    page := requested;
    if page < 1 {
      page := 1;
    }
    var offset := (page - 1) * PAGE_SIZE;
    total := Count(events, f);
    totalPages := (total + PAGE_SIZE - 1) / PAGE_SIZE;
    if totalPages < 1 {
      totalPages := 1;
    }
    if page > totalPages {
      page := totalPages;
      offset := (page - 1) * PAGE_SIZE;
    }
    shown := List(later, f, PAGE_SIZE, offset);
    ShownIsWanted(later, f, page);
    PageIsEmptyIff(events, f, page);
    if Plain(f.search) && DistinctIds(events) { CountIsWanted(events, f); }
  }

  lemma ShownIsWanted(events: seq<Event>, f: Filter, page: int)
    requires 1 <= page
    ensures |Page(events, f, page)| <= 20
    ensures forall e :: e in Page(events, f, page) ==> e in events && Wanted(e, f)
  {
    hide Wanted, Matching, Ordered, Page;
    PageIsSlice(events, f, page);
    forall e | e in Page(events, f, page) ensures e in events && Wanted(e, f) {
      OrderedKeeps(Matching(events, f));
      assert e in Ordered(Matching(events, f)) && e in multiset(Ordered(Matching(events, f)));
      MatchingIsWanted(events, f, e);
    }
  }

  lemma PageIsEmptyIff(events: seq<Event>, f: Filter, page: int)
    requires 1 <= page <= Pages(Count(events, f))
    ensures Page(events, f, page) == [] <==> Count(events, f) == 0
  {
    hide Matching, Ordered, Page;
    OrderedLength(Matching(events, f));
    PageIsSlice(events, f, page);
  }

  lemma {:induction false} InsertKeeps(e: Event, s: seq<Event>)
    ensures multiset(Insert(e, s)) == multiset{e} + multiset(s)
  {
    if s != [] && !Newer(e, s[0]) {
      InsertKeeps(e, s[1..]);
      assert s == [s[0]] + s[1..];
    }
  }

  /** Ordering loses and repeats nothing. */
  lemma {:induction false} OrderedKeeps(s: seq<Event>)
    ensures multiset(Ordered(s)) == multiset(s)
  {
    if s != [] {
      OrderedKeeps(s[1..]);
      InsertKeeps(s[0], Ordered(s[1..]));
      assert s == [s[0]] + s[1..];
    }
  }

  lemma OrderedLength(s: seq<Event>)
    ensures |Ordered(s)| == |s|
  {
    OrderedKeeps(s);
    assert |multiset(Ordered(s))| == |multiset(s)|;
  }

  /** By time, and then by id. */
  predicate NewestFirst(s: seq<Event>) {
    forall i, j :: 0 <= i < j < |s| ==> s[j].ts < s[i].ts || (s[i].ts == s[j].ts && s[j].id < s[i].id)
  }

  predicate DistinctIds(s: seq<Event>) {
    forall i, j :: 0 <= i < j < |s| ==> s[i].id != s[j].id
  }

  lemma {:induction false} InsertOrders(e: Event, s: seq<Event>)
    requires NewestFirst(s) && forall x :: x in s ==> x.id != e.id
    ensures NewestFirst(Insert(e, s)) && forall x :: x in Insert(e, s) <==> x == e || x in s
  {
    if s != [] && !Newer(e, s[0]) {
      InsertOrders(e, s[1..]);
      assert Newer(s[0], e);
      forall k | 0 <= k < |Insert(e, s[1..])| ensures Newer(s[0], Insert(e, s[1..])[k]) {
        var x := Insert(e, s[1..])[k];
        assert x in Insert(e, s[1..]);
        if x != e { assert x in s[1..]; }
      }
    }
  }

  lemma {:induction false} OrderedIsNewestFirst(s: seq<Event>)
    requires DistinctIds(s)
    ensures NewestFirst(Ordered(s)) && forall x :: x in Ordered(s) <==> x in s
  {
    if s != [] {
      OrderedIsNewestFirst(s[1..]);
      forall x | x in Ordered(s[1..]) ensures x.id != s[0].id {
        assert x in s[1..];
      }
      InsertOrders(s[0], Ordered(s[1..]));
    }
  }

  /** Pages first..first+n-1 one after the other. */
  function PagesFrom(events: seq<Event>, f: Filter, first: nat, n: nat): seq<Event>
    decreases n
  {
    if n == 0 then [] else Page(events, f, first) + PagesFrom(events, f, first + 1, n - 1)
  }

  lemma {:induction false} PagesFromIsSuffix(events: seq<Event>, f: Filter, first: nat, n: nat)
    requires 1 <= first && first + n == Pages(Count(events, f)) + 1
    ensures |Ordered(Matching(events, f))| == Count(events, f)
    ensures PagesFrom(events, f, first, n)
         == Ordered(Matching(events, f))[Min((first - 1) * PAGE_SIZE, Count(events, f))..]
    decreases n
  {
    var all := Ordered(Matching(events, f));
    OrderedLength(Matching(events, f));
    if n > 0 {
      PagesFromIsSuffix(events, f, first + 1, n - 1);
    }
  }

  /** The pages together are the whole log, newest first, every matching event
      exactly once. */
  lemma PagesPartitionTheLog(events: seq<Event>, f: Filter)
    requires DistinctIds(events)
    ensures var all := PagesFrom(events, f, 1, Pages(Count(events, f)));
            && NewestFirst(all)
            && multiset(all) == multiset(Matching(events, f))
  {
    PagesFromIsSuffix(events, f, 1, Pages(Count(events, f)));
    MatchingKeepsIds(events, f);
    OrderedIsNewestFirst(Matching(events, f));
    OrderedKeeps(Matching(events, f));
    assert Ordered(Matching(events, f))[0..] == Ordered(Matching(events, f));
  }

  lemma {:induction false} MatchingKeepsIds(events: seq<Event>, f: Filter)
    requires DistinctIds(events)
    ensures DistinctIds(Matching(events, f))
  {
    if events != [] {
      MatchingKeepsIds(events[1..], f);
      KeepMembers(events[1..], (e: Event) => Matches(e, f));
      forall x | x in Matching(events[1..], f) ensures x.id != events[0].id {
        assert x in events[1..];
      }
    }
  }

  lemma {:induction false} DistinctSize(s: seq<Event>)
    requires DistinctIds(s)
    ensures |set e | e in s| == |s|
  {
    if s != [] {
      DistinctSize(s[1..]);
      assert (set e | e in s) == (set e | e in s[1..]) + {s[0]};
    }
  }

  /** The count is the number of events that are wanted. */
  lemma CountIsWanted(events: seq<Event>, f: Filter)
    requires DistinctIds(events) && Plain(f.search)
    ensures Count(events, f) == |set e | e in events && Wanted(e, f)|
  {
    hide Wanted;
    MatchingKeepsIds(events, f);
    DistinctSize(Matching(events, f));
    forall e ensures e in Matching(events, f) <==> e in events && Wanted(e, f) {
      MatchingIsWanted(events, f, e);
    }
    assert (set e | e in Matching(events, f)) == (set e | e in events && Wanted(e, f));
  }

  /** Page by page, the ordered log is cut into pieces of 20. */
  lemma PageIsSlice(events: seq<Event>, f: Filter, page: int)
    requires 1 <= page
    ensures var all := Ordered(Matching(events, f));
            Page(events, f, page) == all[Min(20 * (page - 1), |all|)..Min(20 * page, |all|)]
  {
  }

  /** Place k of the ordered log is on page k / 20 + 1 and on no other. */
  lemma PlaceIsOnPage(events: seq<Event>, f: Filter, page: int, e: Event)
    requires 1 <= page
    ensures e in Page(events, f, page) <==>
              exists k :: 0 <= k < |Ordered(Matching(events, f))| && Ordered(Matching(events, f))[k] == e
                          && k / 20 + 1 == page
  {
    hide Ordered, Matching, Page;
    PageIsSlice(events, f, page);
    PlaceInSlice(Ordered(Matching(events, f)), page - 1, e);
  }

  lemma PlaceInSlice<T>(all: seq<T>, n: nat, e: T)
    ensures e in all[Min(20 * n, |all|)..Min(20 * (n + 1), |all|)] <==>
              exists k :: 0 <= k < |all| && all[k] == e && k / 20 == n
  {
    var lo, part := Min(20 * n, |all|), all[Min(20 * n, |all|)..Min(20 * (n + 1), |all|)];
    if k :| 0 <= k < |all| && all[k] == e && k / 20 == n {
      assert part[k - lo] == e;
    }
    if e in part {
      var i :| 0 <= i < |part| && part[i] == e;
      assert all[lo + i] == e && lo == 20 * n && i < 20;
    }
  }

  /** An event stands on some page exactly if it is wanted, and on no two pages. */
  lemma WantedIsOnOnePage(events: seq<Event>, f: Filter, e: Event)
    requires DistinctIds(events) && Plain(f.search)
    ensures e in events && Wanted(e, f) <==> exists p :: 1 <= p <= Pages(Count(events, f)) && e in Page(events, f, p)
    ensures forall p, q :: 1 <= p && 1 <= q && e in Page(events, f, p) && e in Page(events, f, q) ==> p == q
  {
    var all := Ordered(Matching(events, f));
    MatchingIsWanted(events, f, e);
    MatchingKeepsIds(events, f);
    OrderedIsNewestFirst(Matching(events, f));
    OrderedLength(Matching(events, f));
    hide Wanted, Ordered, Matching, Page;
    forall p | 1 <= p
      ensures e in Page(events, f, p) <==> exists k :: 0 <= k < |all| && all[k] == e && k / 20 + 1 == p
    {
      PlaceIsOnPage(events, f, p, e);
    }
    if e in all {
      var k :| 0 <= k < |all| && all[k] == e;
      assert k / 20 + 1 <= Pages(|all|) && e in Page(events, f, k / 20 + 1);
    }
  }

  lemma FirstOfList(events: seq<Event>, f: Filter)
    ensures List(events, f, 200, 0) == Ordered(Matching(events, f))[..Min(200, |Ordered(Matching(events, f))|)]
  {
  }

  /** The page of a client that has logged in shows nobody else's events: it shows
      the client's own of the period, newest first, at most 200, and leaves none
      out that is newer than one it shows. */
  lemma ClientSeesItsOwn(events: seq<Event>, since: int, client: int)
    requires DistinctIds(events) && 0 < client
    ensures var shown := List(events, Filter(since, 0, client, ""), 200, 0);
            && |shown| <= 200 && NewestFirst(shown)
            && (forall e :: e in shown ==> e in events && e.clientId == client && since <= e.ts)
            && (forall e :: e in events && e.clientId == client && since <= e.ts && e !in shown ==>
                  |shown| == 200 && forall x :: x in shown ==> e.ts < x.ts || (e.ts == x.ts && e.id < x.id))
  {
    hide List, Ordered, Matching, NewestFirst;
    var f := Filter(since, 0, client, "");
    var all, shown := Ordered(Matching(events, f)), List(events, f, 200, 0);
    assert shown == all[..Min(200, |all|)] by { FirstOfList(events, f); }
    MatchingKeepsIds(events, f);
    OrderedIsNewestFirst(Matching(events, f));
    forall e ensures e in all <==> e in events && e.clientId == client && since <= e.ts {
      MatchingIsWanted(events, f, e);
    }
    FirstAreNewest(all, 200);
  }

  lemma FirstAreNewest(all: seq<Event>, n: nat)
    requires NewestFirst(all)
    ensures var shown := all[..Min(n, |all|)];
            && NewestFirst(shown) && (forall e :: e in shown ==> e in all)
            && (forall e :: e in all && e !in shown ==>
                  |shown| == n && forall x :: x in shown ==> e.ts < x.ts || (e.ts == x.ts && e.id < x.id))
  {
    var shown := all[..Min(n, |all|)];
    forall e | e in all && e !in shown
      ensures |shown| == n && forall x :: x in shown ==> e.ts < x.ts || (e.ts == x.ts && e.id < x.id)
    {
      var k :| 0 <= k < |all| && all[k] == e;
      assert forall i :: 0 <= i < |shown| ==> all[i] == shown[i] && shown[i] in shown;
      assert |shown| <= k;
    }
  }
}
