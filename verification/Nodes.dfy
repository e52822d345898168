/** Lists of ssh nodes and the choice of one node per group. */
module Nodes {

  datatype Node = Node(
    name: string,
    user: string,
    address: string,
    port: int,
    baseOS: string,
    arch: string,
    sshPassword: string,
    sshKey: string,
    tags: seq<string>,
    group: string)

  const RANDOM_ONE_PER_GROUP := "random-one-per-group"

  /** The nodes of `group`, in the order of the list. */
  function OfGroup(nodes: seq<Node>, group: string): seq<Node>
  {
    if nodes == [] then
      []
    else
      var front, n := OfGroup(nodes[..|nodes| - 1], group), nodes[|nodes| - 1];
      if n.group == group then front + [n] else front
  }

  function Groups(nodes: seq<Node>): set<string>
  {
    set n | n in nodes :: n.group
  }

  /** Where the nodes of `group` stand in the list. */
  function Positions(nodes: seq<Node>, group: string): seq<nat>
  {
    if nodes == [] then
      []
    else
      var front := Positions(nodes[..|nodes| - 1], group);
      if nodes[|nodes| - 1].group == group then front + [|nodes| - 1] else front
  }

  /** A group keeps the order of the list: it consists of the nodes at increasing positions. */
  lemma {:induction false} GroupKeepsOrder(nodes: seq<Node>, group: string)
    ensures var positions, members := Positions(nodes, group), OfGroup(nodes, group);
            && |positions| == |members|
            && (forall i :: 0 <= i < |members| ==> positions[i] < |nodes| && members[i] == nodes[positions[i]])
            && (forall i, j :: 0 <= i < j < |members| ==> positions[i] < positions[j])
  {
    if nodes != [] {
      GroupKeepsOrder(nodes[..|nodes| - 1], group);
    }
  }

  /** The groups partition the list: every node is in its own group as often as in the list, and
      in no other group. */
  lemma {:induction false} GroupsPartition(nodes: seq<Node>, n: Node, group: string)
    ensures multiset(OfGroup(nodes, group))[n] == if n.group == group then multiset(nodes)[n] else 0
  {
    if nodes != [] {
      var front, last := nodes[..|nodes| - 1], nodes[|nodes| - 1];
      assert nodes == front + [last];
      GroupsPartition(front, n, group);
    }
  }

  /** No group is empty, so that an index into it can be drawn. */
  lemma {:induction false} GroupsAreNotEmpty(nodes: seq<Node>, group: string)
    ensures OfGroup(nodes, group) != [] <==> group in Groups(nodes)
    ensures forall n :: n in OfGroup(nodes, group) ==> n in nodes && n.group == group
  {
    if nodes != [] {
      assert nodes == nodes[..|nodes| - 1] + [nodes[|nodes| - 1]];
      GroupsAreNotEmpty(nodes[..|nodes| - 1], group);
    }
  }

  /** `picked` has exactly one node of each of the `groups`, all of them from `nodes`. */
  ghost predicate IsPick(nodes: seq<Node>, groups: set<string>, picked: seq<Node>)
  {
    && (forall i :: 0 <= i < |picked| ==> picked[i] in nodes)
    && (forall i, j :: 0 <= i < j < |picked| ==> picked[i].group != picked[j].group)
    && Groups(picked) == groups
  }

  ghost predicate IsOnePerGroup(nodes: seq<Node>, picked: seq<Node>)
  {
    IsPick(nodes, Groups(nodes), picked)
  }

  lemma PickOneMore(nodes: seq<Node>, groups: set<string>, picked: seq<Node>, n: Node)
    requires IsPick(nodes, groups, picked) && n in nodes && n.group !in groups
    ensures IsPick(nodes, groups + {n.group}, picked + [n])
  {
    GroupsWithOneMore(picked, n);
    assert forall i :: 0 <= i < |picked| ==> picked[i].group in Groups(picked);
  }

  /** Any node of a group not picked from yet will do, and there is one. */
  lemma PickFromGroup(nodes: seq<Node>, groups: set<string>, picked: seq<Node>, g: string)
    requires IsPick(nodes, groups, picked) && g in Groups(nodes) && g !in groups
    ensures OfGroup(nodes, g) != []
    ensures forall r :: 0 <= r < |OfGroup(nodes, g)| ==> IsPick(nodes, groups + {g}, picked + [OfGroup(nodes, g)[r]])
  {
    GroupsAreNotEmpty(nodes, g);
    forall r | 0 <= r < |OfGroup(nodes, g)|
      ensures IsPick(nodes, groups + {g}, picked + [OfGroup(nodes, g)[r]])
    {
      var n := OfGroup(nodes, g)[r];
      assert n in OfGroup(nodes, g);
      PickOneMore(nodes, groups, picked, n);
    }
  }

  lemma {:induction false} DistinctGroupsCount(picked: seq<Node>)
    requires forall i, j :: 0 <= i < j < |picked| ==> picked[i].group != picked[j].group
    ensures |Groups(picked)| == |picked|
  {
    if picked != [] {
      var front, last := picked[..|picked| - 1], picked[|picked| - 1];
      assert picked == front + [last];
      DistinctGroupsCount(front);
      assert Groups(picked) == Groups(front) + {last.group};
      assert last.group !in Groups(front);
    }
  }

  /** rand.Intn panics on an empty range. */
  method RandomIntInRange(n: int) returns (r: int)
    requires n > 0
    ensures 0 <= r < n
  {
    r :| 0 <= r < n;
  }

  class NodeList {
    var nodes: seq<Node>

    constructor (nodes: seq<Node>)
      ensures this.nodes == nodes
    {
      this.nodes := nodes;
    }

    method NodesPerGroup() returns (npg: map<string, seq<Node>>)
      ensures npg.Keys == Groups(nodes)
      ensures forall g :: g in npg ==> npg[g] == OfGroup(nodes, g)
    {
      npg := map[];
      for i := 0 to |nodes|
        invariant npg.Keys == Groups(nodes[..i])
        invariant forall g :: g in npg ==> npg[g] == OfGroup(nodes[..i], g)
        invariant forall g :: g !in npg ==> OfGroup(nodes[..i], g) == []
      {
        var n := nodes[i];
        assert nodes[..i + 1] == nodes[..i] + [n] && nodes[..i + 1][..i] == nodes[..i];
        if n.group !in npg {
          npg := npg[n.group := []];
        }
        npg := npg[n.group := npg[n.group] + [n]];
      }
      assert nodes[..|nodes|] == nodes;
    }

    /** One node of every group, for any choice of the random numbers and any order in which the
        map is walked. */
    method PickOnePerGroup() returns (picked: seq<Node>)
      ensures IsOnePerGroup(nodes, picked) && |picked| == |Groups(nodes)|
    {
      picked := [];
      var npg := NodesPerGroup();
      var rest := npg.Keys;
      while exists g :: g in rest
        invariant rest <= npg.Keys
        invariant IsPick(nodes, npg.Keys - rest, picked)
        decreases |rest|
      {
        var g :| g in rest;
        var members := npg[g];
        PickFromGroup(nodes, npg.Keys - rest, picked, g);
        var r := RandomIntInRange(|members|);
        picked := picked + [members[r]];
        assert npg.Keys - (rest - {g}) == npg.Keys - rest + {g};
        rest := rest - {g};
      }
      assert npg.Keys - rest == Groups(nodes);
      DistinctGroupsCount(picked);
    }

    method ProcessNodeGroup(processKind: string)
      modifies this
      ensures if processKind == RANDOM_ONE_PER_GROUP then IsOnePerGroup(old(nodes), nodes) else nodes == old(nodes)
    {
      if processKind == RANDOM_ONE_PER_GROUP {
        nodes := PickOnePerGroup();
      }
    }
  }

  lemma GroupsWithOneMore(nodes: seq<Node>, n: Node)
    ensures Groups(nodes + [n]) == Groups(nodes) + {n.group}
  {
    forall g | g in Groups(nodes) ensures g in Groups(nodes + [n]) {
      var m :| m in nodes && m.group == g;
      assert m in nodes + [n];
    }
    assert n in nodes + [n];
  }
}
