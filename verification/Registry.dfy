/** The registry of connected agents, updated in place under one lock: each
    method below is one critical section. */
module AgentRegistry {
  import opened Basics
  import opened Sets
  import opened RoundRobin

  /** A yamux session, reduced to whether it is open. */
  class Session {
    var open: bool

    constructor ()
      ensures open
    {
      open := true;
    }

    method Close()
      modifies this
      ensures !open
    {
      open := false;
    }
  }

  class Agent {
    const id: int
    const session: Session

    constructor (id: int, session: Session)
      ensures this.id == id && this.session == session
    {
      this.id := id;
      this.session := session;
    }
  }

  /** Removal is guarded by identity: only the registered agent itself goes. */
  function Without<A(==)>(agents: map<int, A>, id: int, a: A): (r: map<int, A>)
    ensures id in agents && agents[id] != a ==> r == agents
    ensures !(id in r && r[id] == a)
    ensures forall k :: k != id ==> (k in r <==> k in agents) && (k in r ==> r[k] == agents[k])
  {
    if id in agents && agents[id] == a then agents - {id} else agents
  }

  predicate Ascending(s: seq<int>) {
    forall i, j :: 0 <= i < j < |s| ==> s[i] <= s[j]
  }

  function InsertSorted(x: int, s: seq<int>): (r: seq<int>)
    requires Ascending(s)
    ensures Ascending(r) && |r| == |s| + 1
    ensures forall y :: y in r <==> y == x || y in s
  {
    if s == [] || x <= s[0] then [x] + s
    else
      var rest := InsertSorted(x, s[1..]);
      assert forall j :: 0 <= j < |s[1..]| ==> s[0] <= s[1..][j];
      assert forall y :: y in rest ==> s[0] <= y;
      assert forall k :: 0 <= k < |rest| ==> rest[k] in rest;
      [s[0]] + rest
  }

  /** What sort.Slice leaves in a slice of distinct ids. */
  function Sort(s: seq<int>): (r: seq<int>)
    ensures Ascending(r) && |r| == |s|
    ensures forall y :: y in r <==> y in s
  {
    if s == [] then [] else InsertSorted(s[0], Sort(s[1..]))
  }

  /** In a sorted list of ids, the first one above last, or the first of all. */
  method FirstAbove(sorted: seq<int>, last: int, ghost ids: set<int>) returns (next: int)
    requires Ascending(sorted) && sorted != [] && forall id :: id in ids <==> id in sorted
    ensures IsSuccessor(ids, last, next)
  {
    next := sorted[0];
    var i := 0;
    while i < |sorted|
      invariant 0 <= i <= |sorted| && next == sorted[0]
      invariant forall j :: 0 <= j < i ==> sorted[j] <= last
    {
      if sorted[i] > last {
        next := sorted[i];
        assert next in ids && last < next;
        return;
      }
      i := i + 1;
    }
    assert forall id :: id in ids ==> id in sorted;
  }

  class Registry {
    var agents: map<int, Agent>
    var lastPickedID: int

    constructor ()
      ensures agents == map[] && lastPickedID == 0
    {
      agents, lastPickedID := map[], 0;
    }

    /** Registers a and closes the session it supersedes. */
    method Add(a: Agent)
      modifies this, if a.id in agents then {agents[a.id].session} else {}
      ensures agents == old(agents)[a.id := a] && lastPickedID == old(lastPickedID)
      ensures a.id in old(agents) ==> !old(agents)[a.id].session.open
    {
      if a.id in agents {
        agents[a.id].session.Close();
      }
      agents := agents[a.id := a];
    }

    method Remove(id: int, a: Agent)
      modifies this
      ensures agents == Without(old(agents), id, a) && lastPickedID == old(lastPickedID)
    {
      if id in agents && agents[id] == a {
        agents := agents - {id};
      }
    }

    method Get(id: int) returns (r: Option<Agent>)
      ensures r == if id in agents then Some(agents[id]) else None
    {
      if id in agents {
        r := Some(agents[id]);
      } else {
        r := None;
      }
    }

    method Disconnect(id: int) returns (found: bool)
      modifies if id in agents then {agents[id].session} else {}
      ensures found <==> id in agents
      ensures found ==> !agents[id].session.open
      ensures agents == old(agents)
    {
      found := id in agents;
      if found {
        agents[id].session.Close();
      }
    }

    /** The registered agents, each once, in the map's arbitrary order. */
    method Online() returns (out: seq<Agent>)
      ensures |out| == |agents|
      ensures forall a :: a in out <==> exists id :: id in agents && agents[id] == a
    {
      var rest := agents.Keys;
      out := [];
      while rest != {}
        invariant rest <= agents.Keys && |out| == |agents.Keys| - |rest|
        invariant forall a :: a in out <==> exists id :: id in agents.Keys - rest && agents[id] == a
        decreases rest
      {
        ghost var some := Element(rest);
        var id :| id in rest;
        assert agents.Keys - (rest - {id}) == agents.Keys - rest + {id};
        out := out + [agents[id]];
        rest := rest - {id};
      }
    }

    /** Collects the ids in the map's arbitrary order, sorts them and scans for
        the first one above the last pick, falling back to the smallest. */
    method PickNext() returns (picked: Option<Agent>)
      modifies this`lastPickedID
      ensures picked.None? <==> agents.Keys == {}
      ensures picked.None? ==> lastPickedID == old(lastPickedID)
      ensures picked.Some? ==>
                && IsSuccessor(agents.Keys, old(lastPickedID), lastPickedID)
                && picked.value == agents[lastPickedID]
    {
      if |agents| == 0 {
        assert agents.Keys == {};
        return None;
      }
      var ids, rest := [], agents.Keys;
      while rest != {}
        invariant rest <= agents.Keys && lastPickedID == old(lastPickedID)
        invariant forall id :: id in ids <==> id in agents.Keys - rest
        decreases rest
      {
        ghost var some := Element(rest);
        var id :| id in rest;
        ids := ids + [id];
        rest := rest - {id};
      }
      ghost var some := Element(agents.Keys);
      var sorted := Sort(ids);
      assert some in sorted;
      var next := FirstAbove(sorted, lastPickedID, agents.Keys);
      lastPickedID := next;
      picked := Some(agents[next]);
    }
  }
}
