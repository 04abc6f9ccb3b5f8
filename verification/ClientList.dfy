/** The singly linked list of heap-allocated sessions that the server walks, grows at the front and
    unlinks from in the middle. */
module ClientList {
  import opened Basics
  import opened ServerModel

  /** A heap-allocated session: its fields, and the link to the next one. */
  class Node {
    var s: Session
    var next: Node?

    constructor (s: Session, next: Node?)
      ensures this.s == s && this.next == next
    {
      this.s, this.next := s, next;
    }
  }

  /** nodes is what a walk along the next pointers from first visits: finite, without repetition. */
  ghost predicate Linked(first: Node?, nodes: seq<Node>)
    reads nodes
  {
    && (nodes == [] ==> first == null)
    && (nodes != [] ==> first == nodes[0] && nodes[|nodes| - 1].next == null)
    && (forall i {:trigger nodes[i].next} :: 0 <= i < |nodes| - 1 ==> nodes[i].next == nodes[i + 1])
    && (forall i, j :: 0 <= i < j < |nodes| ==> nodes[i] != nodes[j])
  }

  lemma StruckGone(first: Node?, nodes: seq<Node>, k: nat)
    requires k < |nodes| && Linked(first, nodes)
    ensures nodes[k] !in Struck(nodes, k) && |Struck(nodes, k)| == |nodes| - 1
    ensures forall n :: n in Struck(nodes, k) ==> n in nodes
  {
  }

  class Clients {
    var head: Node?
    ghost var nodes: seq<Node>
    ghost var contents: seq<Session>
    ghost var released: set<Node>   // given back to the allocator; no listed session is

    ghost predicate Valid()
      reads this, nodes
    {
      && Linked(head, nodes)
      && (forall i :: 0 <= i < |nodes| ==> nodes[i] !in released)
      && |contents| == |nodes|
      && forall i :: 0 <= i < |nodes| ==> nodes[i].s == contents[i]
    }

    /** The node at position k. */
    ghost predicate At(client: Node, k: nat)
      reads this
    {
      k < |nodes| && nodes[k] == client
    }

    /** A walk has reached position k, or the end. */
    ghost predicate OnTrack(client: Node?, k: nat)
      reads this
    {
      k <= |nodes| && client == (if k < |nodes| then nodes[k] else null)
    }

    function First(): (first: Node?)
      requires Valid()
      reads this, nodes
      ensures OnTrack(first, 0)
    {
      head
    }

    function Following(client: Node, ghost k: nat): (next: Node?)
      requires Valid() && At(client, k)
      reads this, nodes
      ensures OnTrack(next, k + 1)
    {
      client.next
    }

    /** Reading a session's fields: only while it has not been released. */
    function Fields(client: Node): Session
      requires client !in released
      reads this, client
    {
      client.s
    }

    constructor ()
      ensures Valid() && nodes == [] && contents == [] && released == {}
    {
      head, nodes, contents, released := null, [], [], {};
    }

    /** The walk to the link that points at the client. */
    method FindLink(client: Node, ghost k: nat) returns (prev: Node?)
      requires Valid() && At(client, k)
      ensures k == 0 ==> prev == null
      ensures k > 0 ==> prev == nodes[k - 1]
    {
      var at := head;
      prev := null;
      ghost var i := 0;
      while at != client
        invariant 0 <= i <= k && at == nodes[i]
        invariant i == 0 ==> prev == null
        invariant i > 0 ==> prev == nodes[i - 1]
        decreases k - i
      {
        prev := at;
        at := at.next;
        i := i + 1;
      }
    }

    /** Unlinking and releasing: every other session stays, in order. */
    method Remove(client: Node, ghost k: nat)
      requires Valid() && At(client, k)
      modifies this, nodes
      ensures Valid() && nodes == Struck(old(nodes), k) && contents == Struck(old(contents), k)
      ensures released == old(released) + {client}
      ensures old(client.next) == (if k < |nodes| then nodes[k] else null)
    {
      hide Linked;
      StruckGone(head, nodes, k);
      ghost var was, held := nodes, contents;
      var prev := FindLink(client, k);
      Unlink(prev, client, k);
      contents := Struck(contents, k);
      released := released + {client};
      forall i | 0 <= i < |nodes|
        ensures nodes[i].s == contents[i] && nodes[i] !in released
      {
        var j := if i < k then i else i + 1;
        assert nodes[i] == was[j] && contents[i] == held[j];
        assert nodes[i] in Struck(was, k);
      }
    }

    /** *link = client->next. */
    method Unlink(prev: Node?, client: Node, ghost k: nat)
      requires Linked(head, nodes) && At(client, k)
      requires k == 0 ==> prev == null
      requires k > 0 ==> prev == nodes[k - 1]
      modifies this`head, this`nodes, nodes
      ensures Linked(head, nodes) && nodes == Struck(old(nodes), k)
      ensures forall i :: 0 <= i < |nodes| ==> nodes[i].s == old(nodes[if i < k then i else i + 1].s)
      ensures old(client.next) == (if k < |nodes| then nodes[k] else null)
    {
      if prev == null {
        head := client.next;
      } else {
        prev.next := client.next;
      }
      ghost var before := nodes;
      nodes := Struck(nodes, k);
      assert forall i :: 0 <= i < |nodes| ==> nodes[i] == before[if i < k then i else i + 1];
    }

    /** Overwriting the fields of one session. */
    method Update(client: Node, s: Session, ghost k: nat)
      requires Valid() && At(client, k)
      modifies this, client
      ensures Valid() && nodes == old(nodes) && contents == old(contents)[k := s] && released == old(released)
      ensures client.next == old(client.next)
    {
      client.s := s;
      contents := contents[k := s];
    }

    /** A new session goes to the front. */
    method PushFront(s: Session)
      requires Valid()
      modifies this
      ensures Valid() && |nodes| > 0 && fresh(nodes[0]) && nodes == [nodes[0]] + old(nodes)
      ensures contents == [s] + old(contents) && released == old(released)
    {
      var n := new Node(s, head);
      head := n;
      nodes := [n] + nodes;
      contents := [s] + contents;
    }

    /** clear_client_jobs: every session in the list is cleared. */
    method ClearJobs()
      requires Valid()
      modifies this, nodes
      ensures Valid() && nodes == old(nodes) && contents == ClearSessions(old(contents)) && released == old(released)
    {
      hide Linked;
      ghost var was := contents;
      var client, k := First(), 0;
      while client != null
        invariant 0 <= k <= |nodes| && nodes == old(nodes) && Valid() && |was| == |nodes| && released == old(released)
        invariant OnTrack(client, k)
        invariant forall i :: 0 <= i < k ==> contents[i] == ClearSession(was[i])
        invariant forall i :: k <= i < |nodes| ==> contents[i] == was[i]
        decreases |nodes| - k
      {
        var next := Following(client, k);
        Update(client, Fields(client).(hasJob := false, hashrate := 0, sentJob := ZERO), k);
        client, k := next, k + 1;
      }
      assert contents == ClearSessions(was);
    }

    /** The probe after each handler: is the session still listed? */
    method Contains(client: Node) returns (found: bool)
      requires Valid()
      ensures found <==> client in nodes
    {
      hide Linked;
      var probe := First();
      ghost var k := 0;
      while probe != null
        invariant OnTrack(probe, k)
        invariant client !in nodes[..k]
        decreases |nodes| - k
      {
        if probe == client {
          return true;
        }
        probe := Following(probe, k);
        k := k + 1;
      }
      return false;
    }

    /** stn_client_session_count. */
    method Count() returns (count: nat)
      requires Valid()
      ensures count == |contents|
    {
      hide Linked;
      var at := First();
      count := 0;
      while at != null
        invariant OnTrack(at, count)
        decreases |nodes| - count
      {
        at := Following(at, count);
        count := count + 1;
      }
    }

    /** stn_client_session_total_hashrate: the early return is exactly saturation. */
    method TotalHashrate() returns (total: nat)
      requires Valid()
      ensures total == SaturatedSum(contents)
    {
      hide Linked;
      var at := First();
      total := 0;
      ghost var k := 0;
      while at != null
        invariant OnTrack(at, k)
        invariant total == Sum(contents[..k]) <= UINT64_MAX
        decreases |nodes| - k
      {
        SumSnoc(contents, k);
        SumPrefix(contents, k + 1);
        if UINT64_MAX - total < Fields(at).hashrate {
          return UINT64_MAX;
        }
        total := total + Fields(at).hashrate;
        at := Following(at, k);
        k := k + 1;
      }
      assert contents[..k] == contents;
    }
  }

  const UINT64_MAX: nat := 0xffff_ffff_ffff_ffff

  function Sum(s: seq<Session>): nat {
    if s == [] then 0 else Sum(s[..|s| - 1]) + s[|s| - 1].hashrate
  }

  function SaturatedSum(s: seq<Session>): nat {
    if Sum(s) > UINT64_MAX then UINT64_MAX else Sum(s)
  }

  lemma SumSnoc(s: seq<Session>, k: nat)
    requires k < |s|
    ensures Sum(s[..k + 1]) == Sum(s[..k]) + s[k].hashrate
  {
    assert s[..k + 1][..k] == s[..k];
  }

  lemma {:induction false} SumPrefix(s: seq<Session>, k: nat)
    requires k <= |s|
    ensures Sum(s[..k]) <= Sum(s)
  {
    if k == |s| {
      assert s[..k] == s;
    } else {
      SumPrefix(s[..|s| - 1], k);
      assert s[..|s| - 1][..k] == s[..k];
    }
  }
}
