/** How a tag spreads its users over cluster nodes (internal/manager/manager_tag.go, the
    functions that partition, merge and remove users): every user belongs with the node that
    leads the user's slot. */
module TagUsers {
  import opened Common

  datatype Node = Node(leaderId: nat, uids: seq<string>, slotIds: seq<nat>)

  /** The slot of each user and the leader of each slot, 0 while a slot has no leader. */
  datatype Cluster = Cluster(slotOf: string -> nat, leaderOf: nat -> nat) {
    function Leader(uid: string): nat {
      leaderOf(slotOf(uid))
    }
  }

  predicate Leaderless(c: Cluster, uids: seq<string>) {
    exists uid :: uid in uids && c.Leader(uid) == 0
  }

  // ---------- Partitioning ----------

  /** Those of the first `n` users whose slot this leader leads, in order. */
  function Led(c: Cluster, uids: seq<string>, n: nat, leader: nat): seq<string>
    requires n <= |uids|
  {
    if n == 0 then [] else
    var before := Led(c, uids, n - 1, leader);
    if c.Leader(uids[n - 1]) == leader then before + [uids[n - 1]] else before
  }

  /** Their slots, each once. */
  function Slots(c: Cluster, uids: seq<string>, n: nat, leader: nat): seq<nat>
    requires n <= |uids|
  {
    if n == 0 then [] else
    var before := Slots(c, uids, n - 1, leader);
    var slot := c.slotOf(uids[n - 1]);
    if c.Leader(uids[n - 1]) == leader && slot !in before then before + [slot] else before
  }

  function NodeOf(c: Cluster, uids: seq<string>, n: nat, leader: nat): Node
    requires n <= |uids|
  {
    Node(leader, Led(c, uids, n, leader), Slots(c, uids, n, leader))
  }

  lemma {:induction false} NobodyLed(c: Cluster, uids: seq<string>, n: nat, leader: nat)
    requires n <= |uids| && Led(c, uids, n, leader) == []
    ensures NodeOf(c, uids, n, leader) == Node(leader, [], [])
  {
    if n > 0 {
      NobodyLed(c, uids, n - 1, leader);
    }
  }

  /** The slots of a node are those of its users, each once. */
  lemma {:induction false} SlotsOfUsers(c: Cluster, uids: seq<string>, n: nat, leader: nat, slot: nat)
    requires n <= |uids|
    ensures slot in Slots(c, uids, n, leader) <==>
      exists i :: 0 <= i < n && c.Leader(uids[i]) == leader && c.slotOf(uids[i]) == slot
    ensures forall i, j :: 0 <= i < j < |Slots(c, uids, n, leader)| ==>
      Slots(c, uids, n, leader)[i] != Slots(c, uids, n, leader)[j]
  {
    if n > 0 {
      SlotsOfUsers(c, uids, n - 1, leader, slot);
    }
  }

  predicate DistinctLeaders(nodes: seq<Node>) {
    forall i, j :: 0 <= i < j < |nodes| ==> nodes[i].leaderId != nodes[j].leaderId
  }

  /** One node for each leader, holding exactly the users it leads. */
  ghost predicate Partitions(nodes: seq<Node>, c: Cluster, uids: seq<string>) {
    && DistinctLeaders(nodes)
    && (forall node :: node in nodes ==>
          node.leaderId != 0 && node.uids != [] && node == NodeOf(c, uids, |uids|, node.leaderId))
    && (forall uid :: uid in uids ==> exists node :: node in nodes && node.leaderId == c.Leader(uid))
  }

  type ByLeader = m: map<nat, Node> | forall l :: l in m ==> m[l].leaderId == l

  method Listing(m: ByLeader) returns (nodes: seq<Node>)
    ensures DistinctLeaders(nodes)
    ensures forall node :: node in nodes <==> node.leaderId in m && m[node.leaderId] == node
  {
    nodes := [];
    var rest := m.Keys;
    while rest != {}
      invariant rest <= m.Keys && DistinctLeaders(nodes)
      invariant forall node :: node in nodes <==> node.leaderId in m.Keys - rest && m[node.leaderId] == node
      decreases rest
    {
      var l :| l in rest;
      assert forall i :: 0 <= i < |nodes| ==> nodes[i] in nodes;
      nodes := nodes + [m[l]];
      rest := rest - {l};
    }
  }

  /** The nodes for the first `n` users, by leader. */
  ghost predicate Grouped(m: ByLeader, c: Cluster, uids: seq<string>, n: nat)
    requires n <= |uids|
  {
    && 0 !in m
    && (forall l :: l in m ==> m[l] == NodeOf(c, uids, n, l))
    && (forall l :: l in m <==> Led(c, uids, n, l) != [])
    && (forall j :: 0 <= j < n ==> c.Leader(uids[j]) in m)
  }

  method GroupOne(m0: ByLeader, c: Cluster, uids: seq<string>, n: nat) returns (m: ByLeader)
    requires n < |uids| && Grouped(m0, c, uids, n) && c.Leader(uids[n]) != 0
    ensures Grouped(m, c, uids, n + 1)
  {
    var uid, slot, leader := uids[n], c.slotOf(uids[n]), c.Leader(uids[n]);
    var node := if leader in m0 then m0[leader] else Node(leader, [], []);
    if leader !in m0 {
      NobodyLed(c, uids, n, leader);
    }
    var slots := if slot in node.slotIds then node.slotIds else node.slotIds + [slot];
    m := m0[leader := Node(leader, node.uids + [uid], slots)];
  }

  /** Fails exactly when some user's slot has no leader. */
  method CalcUsersInNode(c: Cluster, uids: seq<string>) returns (r: Maybe<seq<Node>>)
    ensures r.None? <==> Leaderless(c, uids)
    ensures r.Some? ==> Partitions(r.value, c, uids)
  {
    var m: ByLeader := map[];
    for i := 0 to |uids|
      invariant Grouped(m, c, uids, i)
    {
      if c.Leader(uids[i]) == 0 {
        return None;
      }
      m := GroupOne(m, c, uids, i);
    }
    var nodes := Listing(m);
    forall uid | uid in uids
      ensures c.Leader(uid) != 0 && exists node :: node in nodes && node.leaderId == c.Leader(uid)
    {
      assert m[c.Leader(uid)] in nodes;
    }
    r := Some(nodes);
  }

  /** All users of the first `n` nodes, one node after the other. */
  function Users(nodes: seq<Node>, n: nat): seq<string>
    requires n <= |nodes|
  {
    if n == 0 then [] else Users(nodes, n - 1) + nodes[n - 1].uids
  }

  /** How often `x` is listed. */
  function Count<T(==)>(s: seq<T>, x: T): nat {
    if s == [] then 0 else Count(s[..|s| - 1], x) + if s[|s| - 1] == x then 1 else 0
  }

  lemma {:induction false} CountConcat<T>(a: seq<T>, b: seq<T>, x: T)
    ensures Count(a + b, x) == Count(a, x) + Count(b, x)
    decreases |b|
  {
    if b == [] {
      assert a + b == a;
    } else {
      CountConcat(a, b[..|b| - 1], x);
      assert (a + b)[..|a + b| - 1] == a + b[..|b| - 1];
    }
  }

  lemma {:induction false} CountIn<T>(s: seq<T>, x: T)
    ensures Count(s, x) > 0 <==> x in s
  {
    if s != [] {
      CountIn(s[..|s| - 1], x);
      assert s == s[..|s| - 1] + [s[|s| - 1]];
    }
  }

  lemma {:induction false} CountSnoc<T>(s: seq<T>, last: T, x: T)
    ensures Count(s + [last], x) == Count(s, x) + if last == x then 1 else 0
  {
    assert (s + [last])[..|s|] == s;
  }

  lemma {:induction false} LedCount(c: Cluster, uids: seq<string>, n: nat, leader: nat, uid: string)
    requires n <= |uids|
    ensures c.Leader(uid) == leader ==> Count(Led(c, uids, n, leader), uid) == Count(uids[..n], uid)
    ensures c.Leader(uid) != leader ==> Count(Led(c, uids, n, leader), uid) == 0
  {
    if n > 0 {
      LedCount(c, uids, n - 1, leader, uid);
      CountSnoc(uids[..n - 1], uids[n - 1], uid);
      assert uids[..n] == uids[..n - 1] + [uids[n - 1]];
      CountSnoc(Led(c, uids, n - 1, leader), uids[n - 1], uid);
    }
  }

  /** Only the node of the user's leader lists the user. */
  lemma {:induction false} UserCount(nodes: seq<Node>, c: Cluster, uids: seq<string>, n: nat, k: nat, uid: string)
    requires k < |nodes| && n <= |nodes| && Partitions(nodes, c, uids)
    requires nodes[k].leaderId == c.Leader(uid)
    ensures Count(Users(nodes, n), uid) == if k < n then Count(uids, uid) else 0
  {
    if n > 0 {
      UserCount(nodes, c, uids, n - 1, k, uid);
      var node := nodes[n - 1];
      assert node in nodes;
      LedCount(c, uids, |uids|, node.leaderId, uid);
      assert uids[..|uids|] == uids;
      CountConcat(Users(nodes, n - 1), node.uids, uid);
    }
  }

  lemma {:induction false} Unlisted(nodes: seq<Node>, c: Cluster, uids: seq<string>, n: nat, uid: string)
    requires n <= |nodes| && Partitions(nodes, c, uids) && uid !in uids
    ensures uid !in Users(nodes, n)
  {
    if n > 0 {
      Unlisted(nodes, c, uids, n - 1, uid);
      assert nodes[n - 1] in nodes;
      LedAre(c, uids, |uids|, nodes[n - 1].leaderId, uid);
    }
  }

  lemma {:induction false} LedAre(c: Cluster, uids: seq<string>, n: nat, leader: nat, uid: string)
    requires n <= |uids|
    ensures uid in Led(c, uids, n, leader) <==> uid in uids[..n] && c.Leader(uid) == leader
  {
    if n > 0 {
      LedAre(c, uids, n - 1, leader, uid);
      assert uids[..n] == uids[..n - 1] + [uids[n - 1]];
    }
  }

  /** Partitioning loses no user and invents none: each is listed as often as it was given. */
  lemma {:induction false} PartitionKeepsUsers(nodes: seq<Node>, c: Cluster, uids: seq<string>, uid: string)
    requires Partitions(nodes, c, uids)
    ensures Count(Users(nodes, |nodes|), uid) == Count(uids, uid)
  {
    CountIn(uids, uid);
    if uid in uids {
      var node :| node in nodes && node.leaderId == c.Leader(uid);
      var k :| 0 <= k < |nodes| && nodes[k] == node;
      UserCount(nodes, c, uids, |nodes|, k, uid);
    } else {
      Unlisted(nodes, c, uids, |nodes|, uid);
      CountIn(Users(nodes, |nodes|), uid);
    }
  }

  // ---------- Removing users ----------

  /** The list without the first occurrence of `x`. */
  function RemoveFirst(s: seq<string>, x: string): seq<string> {
    if s == [] then [] else if s[0] == x then s[1..] else [s[0]] + RemoveFirst(s[1..], x)
  }

  lemma {:induction false} FirstAt(s: seq<string>, x: string, i: nat)
    requires i < |s| && s[i] == x && x !in s[..i]
    ensures RemoveFirst(s, x) == s[..i] + s[i + 1..]
  {
    if i > 0 {
      assert s[0] in s[..i];
      assert s[1..][..i - 1] == s[1..i];
      assert forall k :: 1 <= k < i ==> s[k] in s[..i];
      FirstAt(s[1..], x, i - 1);
    }
  }

  method CutFirst(s: seq<string>, x: string) returns (r: seq<string>)
    ensures r == RemoveFirst(s, x)
  {
    for i := 0 to |s|
      invariant x !in s[..i]
    {
      if s[i] == x {
        FirstAt(s, x, i);
        return s[..i] + s[i + 1..];
      }
    }
    RemoveFirstKeeps(s, x, x);
    r := s;
  }

  function RemoveEach(s: seq<string>, xs: seq<string>, n: nat): seq<string>
    requires n <= |xs|
  {
    if n == 0 then s else RemoveFirst(RemoveEach(s, xs, n - 1), xs[n - 1])
  }

  /** The nodes without the listed users. */
  function Without(nodes: seq<Node>, uids: seq<string>): (r: seq<Node>)
    ensures |r| == |nodes|
  {
    seq(|nodes|, i requires 0 <= i < |nodes| => nodes[i].(uids := RemoveEach(nodes[i].uids, uids, |uids|)))
  }

  method RemoveExisting(nodes: seq<Node>, uids: seq<string>) returns (r: seq<Node>)
    ensures r == Without(nodes, uids)
  {
    r := nodes;
    for i := 0 to |nodes|
      invariant |r| == |nodes|
      invariant forall k :: 0 <= k < |nodes| ==> r[k] == if k < i then Without(nodes, uids)[k] else nodes[k]
    {
      var left := nodes[i].uids;
      for j := 0 to |uids|
        invariant left == RemoveEach(nodes[i].uids, uids, j)
      {
        left := CutFirst(left, uids[j]);
      }
      r := r[i := r[i].(uids := left)];
    }
  }

  lemma {:induction false} RemoveFirstKeeps(s: seq<string>, x: string, u: string)
    ensures u != x ==> (u in RemoveFirst(s, x) <==> u in s)
    ensures u in RemoveFirst(s, x) ==> u in s
    ensures x !in s ==> RemoveFirst(s, x) == s
    ensures x in s ==> |RemoveFirst(s, x)| == |s| - 1
  {
    if s != [] && s[0] != x {
      RemoveFirstKeeps(s[1..], x, u);
      assert s == [s[0]] + s[1..];
    }
  }

  lemma {:induction false} RemoveEachKeeps(s: seq<string>, xs: seq<string>, n: nat, u: string)
    requires n <= |xs|
    ensures u in RemoveEach(s, xs, n) ==> u in s
    ensures u !in xs[..n] ==> (u in RemoveEach(s, xs, n) <==> u in s)
    ensures |RemoveEach(s, xs, n)| <= |s|
    ensures (forall x :: x in xs[..n] ==> x !in s) ==> RemoveEach(s, xs, n) == s
    ensures (exists x :: x in xs[..n] && x in s) ==> |RemoveEach(s, xs, n)| < |s|
  {
    hide RemoveFirst;
    if n > 0 {
      var x, before := xs[n - 1], xs[..n - 1];
      RemoveEachKeeps(s, xs, n - 1, u);
      RemoveEachKeeps(s, xs, n - 1, x);
      RemoveFirstKeeps(RemoveEach(s, xs, n - 1), x, u);
      assert xs[..n] == before + [x];
      if y :| y in xs[..n] && y in s {
        assert y in before || (y == x && forall z :: z in before ==> z !in s) || exists z :: z in before && z in s;
      }
    }
  }

  lemma {:induction false} RemoveFirstCount(s: seq<string>, x: string, u: string)
    ensures Count(RemoveFirst(s, x), u) == if x == u && u in s then Count(s, u) - 1 else Count(s, u)
  {
    if s != [] {
      CountConcat([s[0]], s[1..], u);
      assert s == [s[0]] + s[1..];
      CountSnoc([], s[0], u);
      assert [s[0]] == [] + [s[0]];
      CountIn(s, u);
      if s[0] != x {
        RemoveFirstCount(s[1..], x, u);
        CountConcat([s[0]], RemoveFirst(s[1..], x), u);
        CountIn(s[1..], u);
      }
    }
  }

  /** A failed addition has already taken the listed users out; it leaves the tag as it was
      exactly when none of them was in it. */
  lemma {:induction false} FailedAdditionIff(nodes: seq<Node>, uids: seq<string>)
    ensures Without(nodes, uids) == nodes <==> forall uid :: uid in uids ==> !Listed(nodes, uid)
  {
    assert uids[..|uids|] == uids;
    forall i | 0 <= i < |nodes|
      ensures Without(nodes, uids)[i] == nodes[i] <==> forall uid :: uid in uids ==> uid !in nodes[i].uids
    {
      RemoveEachKeeps(nodes[i].uids, uids, |uids|, "");
    }
    if Without(nodes, uids) == nodes {
      forall uid | uid in uids
        ensures !Listed(nodes, uid)
      {
        assert forall i :: 0 <= i < |nodes| ==> Without(nodes, uids)[i] == nodes[i];
      }
    }
    if forall uid :: uid in uids ==> !Listed(nodes, uid) {
      forall i | 0 <= i < |nodes|
        ensures Without(nodes, uids)[i] == nodes[i]
      {
        assert nodes[i] in nodes;
      }
    }
  }

  /** It can fail so: `uid` is in the tag and is named again beside a user without a leader. */
  lemma {:induction false} FailedAdditionRemoves(uid: string, other: string)
      returns (c: Cluster, nodes: seq<Node>, uids: seq<string>)
    requires uid != other
    ensures Partitions(nodes, c, [uid]) && Leaderless(c, uids)
    ensures Listed(nodes, uid) && !Listed(Without(nodes, uids), uid)
  {
    c := Cluster((u: string) => if u == other then 1 else 0, (slot: nat) => if slot == 1 then 0 else 1);
    nodes, uids := [Node(1, [uid], [0])], [uid, other];
    SingleUserPartition(c, uid);
    assert nodes[0] in nodes && uids[1] == other && c.Leader(other) == 0;
    assert RemoveEach([uid], uids, 0) == [uid] && RemoveEach([uid], uids, 1) == [] && RemoveEach([uid], uids, 2) == [];
  }

  lemma {:induction false} SingleUserPartition(c: Cluster, uid: string)
    requires c.Leader(uid) != 0
    ensures Partitions([Node(c.Leader(uid), [uid], [c.slotOf(uid)])], c, [uid])
  {
    var leader := c.Leader(uid);
    assert Led(c, [uid], 1, leader) == Led(c, [uid], 0, leader) + [uid];
    assert Slots(c, [uid], 1, leader) == Slots(c, [uid], 0, leader) + [c.slotOf(uid)];
    assert Node(leader, [uid], [c.slotOf(uid)]) in [Node(leader, [uid], [c.slotOf(uid)])];
  }

  // ---------- Merging ----------

  ghost predicate Listed(nodes: seq<Node>, uid: string) {
    exists node :: node in nodes && uid in node.uids
  }

  /** `s` followed by what it lacks of the first `n` elements of `xs`. */
  function Extended<T(==)>(s: seq<T>, xs: seq<T>, n: nat): seq<T>
    requires n <= |xs|
  {
    if n == 0 then s else
    var before := Extended(s, xs, n - 1);
    if xs[n - 1] in before then before else before + [xs[n - 1]]
  }

  lemma {:induction false} ExtendedHas<T>(s: seq<T>, xs: seq<T>, n: nat, x: T)
    requires n <= |xs|
    ensures x in Extended(s, xs, n) <==> x in s || x in xs[..n]
  {
    if n > 0 {
      ExtendedHas(s, xs, n - 1, x);
      assert xs[..n] == xs[..n - 1] + [xs[n - 1]];
    }
  }

  /** The position of the first node of a leader, or the number of nodes. */
  function Find(nodes: seq<Node>, leader: nat): (i: nat)
    ensures i <= |nodes| && (i < |nodes| ==> nodes[i].leaderId == leader)
    ensures forall k :: 0 <= k < i ==> nodes[k].leaderId != leader
  {
    if nodes == [] then 0 else if nodes[0].leaderId == leader then 0 else
    var i := Find(nodes[1..], leader);
    assert forall k :: 1 <= k <= i ==> nodes[k] == nodes[1..][k - 1] || k == |nodes|;
    1 + i
  }

  lemma {:induction false} FoundAt(nodes: seq<Node>, leader: nat, i: nat)
    requires i < |nodes| && nodes[i].leaderId == leader
    requires forall k :: 0 <= k < i ==> nodes[k].leaderId != leader
    ensures Find(nodes, leader) == i
  {
    assert Find(nodes, leader) <= i;
  }

  function UsersAt(nodes: seq<Node>, leader: nat): seq<string> {
    var i := Find(nodes, leader);
    if i < |nodes| then nodes[i].uids else []
  }

  function Joined(a: Node, b: Node): Node {
    Node(a.leaderId, Extended(a.uids, b.uids, |b.uids|), Extended(a.slotIds, b.slotIds, |b.slotIds|))
  }

  function MergeOne(nodes: seq<Node>, node: Node): seq<Node> {
    var i := Find(nodes, node.leaderId);
    if i < |nodes| then nodes[i := Joined(nodes[i], node)] else nodes + [node]
  }

  function Merge(nodes: seq<Node>, more: seq<Node>, n: nat): seq<Node>
    requires n <= |more|
  {
    if n == 0 then nodes else MergeOne(Merge(nodes, more, n - 1), more[n - 1])
  }

  method Extend<T(==)>(s: seq<T>, xs: seq<T>) returns (r: seq<T>)
    ensures r == Extended(s, xs, |xs|)
  {
    r := s;
    for i := 0 to |xs|
      invariant r == Extended(s, xs, i)
    {
      if xs[i] !in r {
        r := r + [xs[i]];
      }
    }
  }

  method FindNode(nodes: seq<Node>, leader: nat) returns (i: nat)
    ensures i == Find(nodes, leader)
  {
    i := 0;
    while i < |nodes| && nodes[i].leaderId != leader
      invariant i <= |nodes| && forall k :: 0 <= k < i ==> nodes[k].leaderId != leader
    {
      i := i + 1;
    }
  }

  method MergeNodes(nodes: seq<Node>, more: seq<Node>) returns (r: seq<Node>)
    ensures r == Merge(nodes, more, |more|)
  {
    r := nodes;
    for k := 0 to |more|
      invariant r == Merge(nodes, more, k)
    {
      var i := FindNode(r, more[k].leaderId);
      if i < |r| {
        var uids := Extend(r[i].uids, more[k].uids);
        var slots := Extend(r[i].slotIds, more[k].slotIds);
        r := r[i := Node(r[i].leaderId, uids, slots)];
      } else {
        r := r + [more[k]];
      }
    }
  }

  lemma {:induction false} MergeOneLists(nodes: seq<Node>, node: Node, uid: string)
    ensures Listed(MergeOne(nodes, node), uid) <==> Listed(nodes, uid) || uid in node.uids
  {
    var merged := MergeOne(nodes, node);
    var i := Find(nodes, node.leaderId);
    if i < |nodes| {
      ExtendedHas(nodes[i].uids, node.uids, |node.uids|, uid);
      assert node.uids[..|node.uids|] == node.uids;
      assert merged[i] in merged;
      if Listed(nodes, uid) {
        var k :| 0 <= k < |nodes| && uid in nodes[k].uids;
        assert merged[k] in merged;
      }
    } else if Listed(nodes, uid) {
      var n :| n in nodes && uid in n.uids;
      assert n in merged;
    } else {
      assert node in merged;
    }
  }

  lemma {:induction false} MergeLists(nodes: seq<Node>, more: seq<Node>, n: nat, uid: string)
    requires n <= |more|
    ensures Listed(Merge(nodes, more, n), uid) <==> Listed(nodes, uid) || Listed(more[..n], uid)
  {
    if n > 0 {
      MergeLists(nodes, more, n - 1, uid);
      MergeOneLists(Merge(nodes, more, n - 1), more[n - 1], uid);
      assert more[..n] == more[..n - 1] + [more[n - 1]];
    }
  }

  lemma {:induction false} WithoutLists(nodes: seq<Node>, uids: seq<string>, uid: string)
    ensures Listed(Without(nodes, uids), uid) ==> Listed(nodes, uid)
    ensures uid !in uids && Listed(nodes, uid) ==> Listed(Without(nodes, uids), uid)
  {
    var r := Without(nodes, uids);
    assert uids[..|uids|] == uids;
    forall i | 0 <= i < |nodes|
      ensures uid in r[i].uids ==> uid in nodes[i].uids
      ensures uid !in uids && uid in nodes[i].uids ==> uid in r[i].uids
    {
      RemoveEachKeeps(nodes[i].uids, uids, |uids|, uid);
    }
    if uid !in uids && Listed(nodes, uid) {
      var i :| 0 <= i < |nodes| && uid in nodes[i].uids;
      assert r[i] in r;
    }
  }

  lemma {:induction false} PartitionLists(nodes: seq<Node>, c: Cluster, uids: seq<string>, uid: string)
    requires Partitions(nodes, c, uids)
    ensures Listed(nodes, uid) <==> uid in uids
  {
    assert uids[..|uids|] == uids;
    forall node | node in nodes
      ensures uid in node.uids <==> uid in uids && c.Leader(uid) == node.leaderId
    {
      LedAre(c, uids, |uids|, node.leaderId, uid);
    }
  }

  /** The nodes of a tag after users have been added. */
  function Added(nodes: seq<Node>, uids: seq<string>, parts: seq<Node>): seq<Node> {
    Merge(Without(nodes, uids), parts, |parts|)
  }

  /** After an addition the tag has its earlier users and the added ones, and no others. */
  lemma {:induction false} AdditionIsUnion(nodes: seq<Node>, c: Cluster, uids: seq<string>, parts: seq<Node>,
        uid: string)
    requires Partitions(parts, c, uids)
    ensures Listed(Added(nodes, uids, parts), uid) <==> Listed(nodes, uid) || uid in uids
  {
    WithoutLists(nodes, uids, uid);
    MergeLists(Without(nodes, uids), parts, |parts|, uid);
    assert parts[..|parts|] == parts;
    PartitionLists(parts, c, uids, uid);
  }

  lemma {:induction false} MergeOneAt(nodes: seq<Node>, node: Node, leader: nat, uid: string)
    ensures uid in UsersAt(nodes, leader) ==> uid in UsersAt(MergeOne(nodes, node), leader)
    ensures uid in node.uids ==> uid in UsersAt(MergeOne(nodes, node), node.leaderId)
  {
    var merged := MergeOne(nodes, node);
    var i := Find(nodes, node.leaderId);
    if i < |nodes| {
      ExtendedHas(nodes[i].uids, node.uids, |node.uids|, uid);
      assert node.uids[..|node.uids|] == node.uids;
    }
    FoundAt(merged, node.leaderId, i);
    var j := Find(nodes, leader);
    if j < |nodes| {
      FoundAt(merged, leader, j);
    }
  }

  lemma {:induction false} MergeAt(nodes: seq<Node>, more: seq<Node>, n: nat, k: nat, uid: string)
    requires k < n <= |more| && uid in more[k].uids
    ensures uid in UsersAt(Merge(nodes, more, n), more[k].leaderId)
  {
    MergeOneAt(Merge(nodes, more, n - 1), more[n - 1], more[k].leaderId, uid);
    if k < n - 1 {
      MergeAt(nodes, more, n - 1, k, uid);
    }
  }

  /** Every added user is found with the node that leads the user's slot. */
  lemma {:induction false} AddedAreWithTheirLeader(
      nodes: seq<Node>, c: Cluster, uids: seq<string>, parts: seq<Node>, uid: string)
    requires Partitions(parts, c, uids) && uid in uids
    ensures uid in UsersAt(Added(nodes, uids, parts), c.Leader(uid))
  {
    var node :| node in parts && node.leaderId == c.Leader(uid);
    LedAre(c, uids, |uids|, node.leaderId, uid);
    assert uids[..|uids|] == uids;
    var k :| 0 <= k < |parts| && parts[k] == node;
    MergeAt(Without(nodes, uids), parts, |parts|, k, uid);
  }

  // ---------- Removing listed users at their leader ----------

  function RemovedAt(nodes: seq<Node>, leader: nat, uid: string): (r: seq<Node>)
    ensures |r| == |nodes| && forall k :: 0 <= k < |nodes| ==> r[k].leaderId == nodes[k].leaderId
  {
    var i := Find(nodes, leader);
    if i < |nodes| then nodes[i := nodes[i].(uids := RemoveFirst(nodes[i].uids, uid))] else nodes
  }

  function Removed(nodes: seq<Node>, c: Cluster, uids: seq<string>, n: nat): (r: seq<Node>)
    requires n <= |uids|
    ensures |r| == |nodes| && forall k :: 0 <= k < |nodes| ==> r[k].leaderId == nodes[k].leaderId
  {
    if n == 0 then nodes else RemovedAt(Removed(nodes, c, uids, n - 1), c.Leader(uids[n - 1]), uids[n - 1])
  }

  /** Stops at the first user whose slot has no leader; the earlier ones stay removed. */
  method RemoveUsers(nodes: seq<Node>, c: Cluster, uids: seq<string>) returns (r: seq<Node>, ok: bool, n: nat)
    ensures n <= |uids| && r == Removed(nodes, c, uids, n)
    ensures (forall i :: 0 <= i < n ==> c.Leader(uids[i]) != 0) && (n < |uids| ==> c.Leader(uids[n]) == 0)
    ensures ok <==> !Leaderless(c, uids)
  {
    r, n := nodes, 0;
    while n < |uids|
      invariant n <= |uids| && r == Removed(nodes, c, uids, n)
      invariant forall i :: 0 <= i < n ==> c.Leader(uids[i]) != 0
    {
      if c.Leader(uids[n]) == 0 {
        return r, false, n;
      }
      var i := FindNode(r, c.Leader(uids[n]));
      if i < |r| {
        var left := CutFirst(r[i].uids, uids[n]);
        r := r[i := r[i].(uids := left)];
      }
      n := n + 1;
    }
    ok := true;
  }

  lemma {:induction false} SameFind(a: seq<Node>, b: seq<Node>, leader: nat)
    requires |a| == |b| && forall k :: 0 <= k < |a| ==> a[k].leaderId == b[k].leaderId
    ensures Find(a, leader) == Find(b, leader)
  {
    var i := Find(a, leader);
    if i < |a| {
      FoundAt(b, leader, i);
    } else {
      assert forall k :: 0 <= k < |b| ==> b[k].leaderId != leader;
    }
  }

  lemma {:induction false} RemovedAtCount(nodes: seq<Node>, leader: nat, x: string, k: nat, uid: string)
    requires k < |nodes|
    ensures var was := Count(nodes[k].uids, uid);
            Count(RemovedAt(nodes, leader, x)[k].uids, uid) ==
            if k == Find(nodes, leader) && x == uid && was > 0 then was - 1 else was
  {
    RemoveFirstCount(nodes[k].uids, x, uid);
    CountIn(nodes[k].uids, uid);
  }

  lemma {:induction false} RemovalStep(nodes: seq<Node>, c: Cluster, uids: seq<string>, n: nat, k: nat, uid: string)
    requires 0 < n <= |uids| && k < |nodes|
    ensures var was := Count(Removed(nodes, c, uids, n - 1)[k].uids, uid);
            Count(Removed(nodes, c, uids, n)[k].uids, uid) ==
            if k == Find(nodes, c.Leader(uid)) && uids[n - 1] == uid && was > 0 then was - 1 else was
    ensures Count(uids[..n], uid) == Count(uids[..n - 1], uid) + if uids[n - 1] == uid then 1 else 0
  {
    hide Count, RemovedAt, Find;
    var before, last := Removed(nodes, c, uids, n - 1), uids[n - 1];
    assert uids[..n] == uids[..n - 1] + [last];
    CountSnoc(uids[..n - 1], last, uid);
    RemovedAtCount(before, c.Leader(last), last, k, uid);
    if last == uid {
      SameFind(before, nodes, c.Leader(uid));
    }
  }

  /** A removal takes out one entry of the user for each time it is named, and only with the node
      that leads the user's slot now: an entry left with an earlier leader stays. */
  lemma {:induction false} RemovalIsAtTheLeader(
      nodes: seq<Node>, c: Cluster, uids: seq<string>, n: nat, k: nat, uid: string)
    requires n <= |uids| && k < |nodes|
    ensures var was, named := Count(nodes[k].uids, uid), Count(uids[..n], uid);
            Count(Removed(nodes, c, uids, n)[k].uids, uid) ==
            if k != Find(nodes, c.Leader(uid)) then was else if was < named then 0 else was - named
  {
    hide RemovedAt, Find;
    if n > 0 {
      RemovalIsAtTheLeader(nodes, c, uids, n - 1, k, uid);
      RemovalStep(nodes, c, uids, n, k, uid);
    }
  }

  /** So a removal has the user listed nowhere any more if and only if no node but that of the
      present leader listed it, and that one no more often than it is named. */
  lemma {:induction false} RemovedEverywhereIff(nodes: seq<Node>, c: Cluster, uids: seq<string>, uid: string)
    ensures !Listed(Removed(nodes, c, uids, |uids|), uid) <==>
      forall k :: 0 <= k < |nodes| && uid in nodes[k].uids ==>
        k == Find(nodes, c.Leader(uid)) && Count(nodes[k].uids, uid) <= Count(uids, uid)
  {
    hide Removed, Find, Count;
    var r := Removed(nodes, c, uids, |uids|);
    assert uids[..|uids|] == uids;
    forall k | 0 <= k < |nodes|
      ensures uid in r[k].uids <==>
        uid in nodes[k].uids && (k == Find(nodes, c.Leader(uid)) ==> Count(uids, uid) < Count(nodes[k].uids, uid))
    {
      RemovalIsAtTheLeader(nodes, c, uids, |uids|, k, uid);
      CountIn(r[k].uids, uid);
      CountIn(nodes[k].uids, uid);
    }
  }

  /** It happens: the slot of `uid` moved from one leader to another after the tag was made. */
  lemma {:induction false} MovedUserStays(uid: string) returns (made: Cluster, now: Cluster, nodes: seq<Node>)
    ensures Partitions(nodes, made, [uid]) && !Leaderless(now, [uid])
    ensures Listed(Removed(nodes, now, [uid], 1), uid)
  {
    made := Cluster((u: string) => 0, (slot: nat) => 1);
    now := Cluster((u: string) => 0, (slot: nat) => 2);
    nodes := [Node(1, [uid], [0])];
    SingleUserPartition(made, uid);
    assert nodes[0].leaderId != now.Leader(uid);
    assert uid in nodes[0].uids;
    RemovedEverywhereIff(nodes, now, [uid], uid);
  }
}
