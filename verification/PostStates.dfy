/**
 Comparing the post states that the clients wrote for one case: `build_case_record` groups the clients
 by a hash of the bytes and lists the pairs that disagree, `compare_ssz_files_in_output` lists the
 pairs only.
 */
module PostStates {
  import opened Sequences
  import opened Wrappers

  type Client = string

  datatype Group<H> = Group(hash: H, actors: seq<Client>)

  /*************************************** Grouping ***************************************/

  /** `groups[h].append(c)` on an insertion-ordered dictionary of lists. */
  function AddTo<H(==)>(groups: seq<Group<H>>, h: H, c: Client): seq<Group<H>> {
    if groups == [] then [Group(h, [c])]
    else if groups[0].hash == h then [Group(h, groups[0].actors + [c])] + groups[1..]
    else [groups[0]] + AddTo(groups[1..], h, c)
  }

  /** The groups after adding the clients in order. */
  function GroupBy<H(==)>(clients: seq<Client>, key: Client -> H): seq<Group<H>> {
    if clients == [] then []
    else
      var last := clients[|clients| - 1];
      AddTo(GroupBy(clients[..|clients| - 1], key), key(last), last)
  }

  /** The members of the group with this hash, in order. */
  function Sharing<H(==)>(clients: seq<Client>, key: Client -> H, h: H): seq<Client> {
    if clients == [] then []
    else
      var last := clients[|clients| - 1];
      Sharing(clients[..|clients| - 1], key, h) + if key(last) == h then [last] else []
  }

  ghost predicate HashesDistinct<H>(groups: seq<Group<H>>) {
    forall i, j :: 0 <= i < j < |groups| ==> groups[i].hash != groups[j].hash
  }

  /** The group of a hash, the empty list if there is none. */
  function Lookup<H(==)>(groups: seq<Group<H>>, h: H): seq<Client> {
    if groups == [] then []
    else if groups[0].hash == h then groups[0].actors
    else Lookup(groups[1..], h)
  }

  ghost predicate Nonempty<H>(groups: seq<Group<H>>) {
    forall g :: g in groups ==> g.actors != []
  }

  lemma {:induction false} AddToFacts<H>(groups: seq<Group<H>>, h: H, c: Client, k: H)
    ensures Lookup(AddTo(groups, h, c), k) == Lookup(groups, k) + if k == h then [c] else []
    ensures Nonempty(groups) ==> Nonempty(AddTo(groups, h, c))
  {
    if groups != [] {
      AddToFacts(groups[1..], h, c, k);
      assert AddTo(groups, h, c)[1..] == if groups[0].hash == h then groups[1..] else AddTo(groups[1..], h, c);
      if Nonempty(groups) {
        assert Nonempty(groups[1..]);
      }
    }
  }

  function Hashes<H>(groups: seq<Group<H>>): set<H> {
    set g | g in groups :: g.hash
  }

  lemma HashesCons<H>(g: Group<H>, rest: seq<Group<H>>)
    ensures Hashes([g] + rest) == {g.hash} + Hashes(rest)
  {
  }

  lemma DistinctCons<H>(g: Group<H>, rest: seq<Group<H>>)
    ensures HashesDistinct([g] + rest) <==> HashesDistinct(rest) && g.hash !in Hashes(rest)
  {
    var all := [g] + rest;
    assert forall i :: 0 <= i < |rest| ==> all[i + 1] == rest[i];
    if HashesDistinct(all) {
      forall i, j | 0 <= i < j < |rest|
        ensures rest[i].hash != rest[j].hash
      {
        assert all[i + 1].hash != all[j + 1].hash;
      }
      forall i | 0 <= i < |rest|
        ensures rest[i].hash != g.hash
      {
        assert all[0].hash != all[i + 1].hash;
      }
    }
    if HashesDistinct(rest) && g.hash !in Hashes(rest) {
      forall i, j | 0 <= i < j < |all|
        ensures all[i].hash != all[j].hash
      {
        assert all[j].hash == rest[j - 1].hash && rest[j - 1].hash in Hashes(rest);
      }
    }
  }

  lemma {:induction false} AddToHashes<H>(groups: seq<Group<H>>, h: H, c: Client)
    requires HashesDistinct(groups)
    ensures HashesDistinct(AddTo(groups, h, c))
    ensures Hashes(AddTo(groups, h, c)) == Hashes(groups) + {h}
  {
    if groups == [] {
      assert AddTo(groups, h, c) == [Group(h, [c])] + [];
      HashesCons(Group(h, [c]), []);
      DistinctCons(Group(h, [c]), []);
    } else {
      var rest := groups[1..];
      assert groups == [groups[0]] + rest;
      HashesCons(groups[0], rest);
      DistinctCons(groups[0], rest);
      if groups[0].hash == h {
        HashesCons(Group(h, groups[0].actors + [c]), rest);
        DistinctCons(Group(h, groups[0].actors + [c]), rest);
      } else {
        AddToHashes(rest, h, c);
        HashesCons(groups[0], AddTo(rest, h, c));
        DistinctCons(groups[0], AddTo(rest, h, c));
      }
    }
  }

  lemma {:induction false} GroupHashes<H>(clients: seq<Client>, key: Client -> H)
    ensures HashesDistinct(GroupBy(clients, key))
    ensures Hashes(GroupBy(clients, key)) == (set c | c in clients :: key(c))
  {
    if clients != [] {
      var front, last := clients[..|clients| - 1], clients[|clients| - 1];
      GroupHashes(front, key);
      AddToHashes(GroupBy(front, key), key(last), last);
      KeysSnoc(clients, key);
    }
  }

  lemma KeysSnoc<H>(clients: seq<Client>, key: Client -> H)
    requires clients != []
    ensures var front, last := clients[..|clients| - 1], clients[|clients| - 1];
            (set c | c in clients :: key(c)) == (set c | c in front :: key(c)) + {key(last)}
  {
    assert clients == clients[..|clients| - 1] + [clients[|clients| - 1]];
  }

  lemma {:induction false} GroupMembers<H>(clients: seq<Client>, key: Client -> H, h: H)
    ensures Nonempty(GroupBy(clients, key)) && Lookup(GroupBy(clients, key), h) == Sharing(clients, key, h)
  {
    if clients != [] {
      var front, last := clients[..|clients| - 1], clients[|clients| - 1];
      GroupMembers(front, key, h);
      AddToFacts(GroupBy(front, key), key(last), last, h);
    }
  }

  /** The groups partition the clients: one group per hash that occurs, holding its clients in order. */
  lemma GroupsPartition<H>(clients: seq<Client>, key: Client -> H)
    ensures var groups := GroupBy(clients, key);
            && HashesDistinct(groups) && Nonempty(groups)
            && Hashes(groups) == (set c | c in clients :: key(c))
            && forall h :: Lookup(groups, h) == Sharing(clients, key, h)
  {
    GroupHashes(clients, key);
    forall h
      ensures Nonempty(GroupBy(clients, key)) && Lookup(GroupBy(clients, key), h) == Sharing(clients, key, h)
    {
      GroupMembers(clients, key, h);
    }
    if !Nonempty(GroupBy(clients, key)) {
      var g :| g in GroupBy(clients, key) && g.actors == [];
      GroupMembers(clients, key, g.hash);
    }
  }

  lemma {:induction false} SharingMembers<H>(clients: seq<Client>, key: Client -> H, h: H, c: Client)
    ensures c in Sharing(clients, key, h) <==> c in clients && key(c) == h
  {
    if clients != [] {
      var front, last := clients[..|clients| - 1], clients[|clients| - 1];
      assert clients == front + [last];
      SharingMembers(front, key, h, c);
    }
  }

  lemma {:induction false} LookupOfGroup<H>(groups: seq<Group<H>>, i: nat)
    requires HashesDistinct(groups) && i < |groups|
    ensures Lookup(groups, groups[i].hash) == groups[i].actors
  {
    if i > 0 {
      assert groups[0].hash != groups[i].hash;
      assert groups[1..][i - 1] == groups[i];
      LookupOfGroup(groups[1..], i - 1);
    }
  }

  /** Which group a client is in: the one with its hash, and only that. */
  lemma MemberIff<H>(clients: seq<Client>, key: Client -> H, i: nat, c: Client)
    requires i < |GroupBy(clients, key)|
    ensures c in GroupBy(clients, key)[i].actors <==> c in clients && key(c) == GroupBy(clients, key)[i].hash
  {
    GroupsPartition(clients, key);
    var groups := GroupBy(clients, key);
    LookupOfGroup(groups, i);
    SharingMembers(clients, key, groups[i].hash, c);
    assert groups[i].actors == Sharing(clients, key, groups[i].hash);
  }

  /** The clients whose hash no client before them has. */
  function FirstOccurrences<H(==)>(clients: seq<Client>, key: Client -> H): seq<Client> {
    if clients == [] then []
    else
      var front, last := clients[..|clients| - 1], clients[|clients| - 1];
      FirstOccurrences(front, key) + if exists c | c in front :: key(c) == key(last) then [] else [last]
  }

  function Leaders<H>(groups: seq<Group<H>>): seq<Client> {
    if groups == [] then []
    else (if groups[0].actors == [] then [] else [groups[0].actors[0]]) + Leaders(groups[1..])
  }

  lemma LeadersCons<H>(g: Group<H>, rest: seq<Group<H>>)
    requires g.actors != []
    ensures Leaders([g] + rest) == [g.actors[0]] + Leaders(rest)
  {
    assert ([g] + rest)[1..] == rest;
  }

  lemma {:induction false} AddToLeaders<H>(groups: seq<Group<H>>, h: H, c: Client)
    requires Nonempty(groups)
    ensures Leaders(AddTo(groups, h, c)) == Leaders(groups) + if h in Hashes(groups) then [] else [c]
  {
    if groups == [] {
      assert AddTo(groups, h, c)[1..] == [];
    } else {
      var g, rest := groups[0], groups[1..];
      assert Nonempty(rest) && g in groups;
      assert groups == [g] + rest;
      LeadersCons(g, rest);
      HashesCons(g, rest);
      if g.hash == h {
        LeadersCons(Group(h, g.actors + [c]), rest);
      } else {
        AddToLeaders(rest, h, c);
        LeadersCons(g, AddTo(rest, h, c));
      }
    }
  }

  /** The groups come in the order of their first clients. */
  lemma {:induction false} GroupsInClientOrder<H>(clients: seq<Client>, key: Client -> H)
    ensures Leaders(GroupBy(clients, key)) == FirstOccurrences(clients, key)
  {
    if clients != [] {
      var front, last := clients[..|clients| - 1], clients[|clients| - 1];
      GroupsInClientOrder(front, key);
      GroupsPartition(front, key);
      AddToLeaders(GroupBy(front, key), key(last), last);
    }
  }

  /** The least rank among clients, 0 if there is none. */
  function Least(clients: seq<Client>, rank: Client -> nat): nat {
    if clients == [] then 0
    else if |clients| == 1 || rank(clients[0]) <= Least(clients[1..], rank) then rank(clients[0])
    else Least(clients[1..], rank)
  }

  /** `min(CLIENT_DIRS.index(c) for c in actors)` */
  function LeastOfGroup<H>(rank: Client -> nat): Group<H> -> nat {
    (g: Group<H>) => Least(g.actors, rank)
  }

  lemma {:induction false} LeastIsFirst(clients: seq<Client>, rank: Client -> nat)
    requires Ascending(clients, rank) && clients != []
    ensures Least(clients, rank) == rank(clients[0])
  {
    if |clients| > 1 {
      LeastIsFirst(clients[1..], rank);
    }
  }

  lemma AscendingFront(clients: seq<Client>, rank: Client -> nat)
    requires Ascending(clients, rank) && clients != []
    ensures Ascending(clients[..|clients| - 1], rank)
    ensures forall c :: c in clients[..|clients| - 1] ==> rank(c) < rank(clients[|clients| - 1])
  {
  }

  lemma {:induction false} SharingAscends<H>(clients: seq<Client>, key: Client -> H, h: H, rank: Client -> nat)
    requires Ascending(clients, rank)
    ensures Ascending(Sharing(clients, key, h), rank)
  {
    if clients != [] {
      var front, last := clients[..|clients| - 1], clients[|clients| - 1];
      AscendingFront(clients, rank);
      SharingAscends(front, key, h, rank);
      forall c | c in Sharing(front, key, h)
        ensures rank(c) < rank(last)
      {
        SharingMembers(front, key, h, c);
      }
      AscendingSnoc(Sharing(front, key, h), last, rank);
      assert Sharing(front, key, h) + [] == Sharing(front, key, h);
    }
  }

  lemma {:induction false} FirstsAscend<H>(clients: seq<Client>, key: Client -> H, rank: Client -> nat)
    requires Ascending(clients, rank)
    ensures Ascending(FirstOccurrences(clients, key), rank)
    ensures forall c :: c in FirstOccurrences(clients, key) ==> c in clients
  {
    if clients != [] {
      var front, last := clients[..|clients| - 1], clients[|clients| - 1];
      AscendingFront(clients, rank);
      FirstsAscend(front, key, rank);
      AscendingSnoc(FirstOccurrences(front, key), last, rank);
      assert FirstOccurrences(front, key) + [] == FirstOccurrences(front, key);
      assert clients == front + [last];
    }
  }

  lemma {:induction false} LeaderAt<H>(groups: seq<Group<H>>, i: nat)
    requires Nonempty(groups) && i < |groups|
    ensures |Leaders(groups)| == |groups| && Leaders(groups)[i] == groups[i].actors[0]
  {
    assert groups[0] in groups;
    assert Nonempty(groups[1..]);
    if |groups| > 1 {
      LeaderAt(groups[1..], if i > 0 then i - 1 else 0);
      assert i > 0 ==> groups[1..][i - 1] == groups[i];
    }
  }

  /**
   For clients in ascending order, the groups already ascend by their least client, and so do the clients in
   each group: sorting either of them changes nothing.
   */
  lemma SortingChangesNothing<H>(clients: seq<Client>, key: Client -> H, rank: Client -> nat)
    requires Ascending(clients, rank)
    ensures var groups := GroupBy(clients, key);
            && Ascending(groups, LeastOfGroup(rank)) && SortBy(groups, LeastOfGroup(rank)) == groups
            && forall g :: g in groups ==> Ascending(g.actors, rank) && SortBy(g.actors, rank) == g.actors
  {
    var groups := GroupBy(clients, key);
    GroupsAscend(clients, key, rank);
    SortAscending(groups, LeastOfGroup(rank));
    forall g | g in groups
      ensures Ascending(g.actors, rank) && SortBy(g.actors, rank) == g.actors
    {
      var i :| 0 <= i < |groups| && groups[i] == g;
      GroupAt(clients, key, rank, i);
      SortAscending(g.actors, rank);
    }
  }

  /** One group: its clients ascend, and its least one is the leader. */
  lemma GroupAt<H>(clients: seq<Client>, key: Client -> H, rank: Client -> nat, i: nat)
    requires Ascending(clients, rank) && i < |GroupBy(clients, key)|
    ensures var groups := GroupBy(clients, key);
            && Ascending(groups[i].actors, rank) && |Leaders(groups)| == |groups|
            && Least(groups[i].actors, rank) == rank(Leaders(groups)[i])
  {
    var groups := GroupBy(clients, key);
    var g := groups[i];
    GroupHashes(clients, key);
    GroupMembers(clients, key, g.hash);
    LookupOfGroup(groups, i);
    SharingAscends(clients, key, g.hash, rank);
    assert g in groups;
    LeastIsFirst(g.actors, rank);
    LeaderAt(groups, i);
  }

  lemma GroupsAscend<H>(clients: seq<Client>, key: Client -> H, rank: Client -> nat)
    requires Ascending(clients, rank)
    ensures Ascending(GroupBy(clients, key), LeastOfGroup(rank))
  {
    var groups := GroupBy(clients, key);
    GroupsInClientOrder(clients, key);
    FirstsAscend(clients, key, rank);
    forall i, j | 0 <= i < j < |groups|
      ensures LeastOfGroup(rank)(groups[i]) < LeastOfGroup(rank)(groups[j])
    {
      GroupAt(clients, key, rank, i);
      GroupAt(clients, key, rank, j);
    }
  }

  /************************************ Disagreeing pairs ************************************/

  /** The pairs of `a` with a later client that has something else. */
  function Row<K(==)>(a: Client, later: seq<Client>, key: Client -> K): seq<(Client, Client)> {
    if later == [] then []
    else (if key(a) != key(later[0]) then [(a, later[0])] else []) + Row(a, later[1..], key)
  }

  /** All pairs of clients that have different things, in the order of the clients. */
  function Mismatches<K(==)>(clients: seq<Client>, key: Client -> K): seq<(Client, Client)> {
    if clients == [] then [] else Row(clients[0], clients[1..], key) + Mismatches(clients[1..], key)
  }

  lemma RowGoesOn<K>(row: seq<(Client, Client)>, a: Client, clients: seq<Client>, j: nat, key: Client -> K)
    requires j < |clients|
    ensures row + Row(a, clients[j..], key) ==
            row + (if key(a) != key(clients[j]) then [(a, clients[j])] else []) + Row(a, clients[j + 1..], key)
  {
    TailFrom(clients, j);
    Regroup(row, if key(a) != key(clients[j]) then [(a, clients[j])] else [], Row(a, clients[j + 1..], key));
  }

  /** The inner loop: client `i` against the later ones. */
  method ListRow<K(==)>(clients: seq<Client>, i: nat, key: Client -> K) returns (row: seq<(Client, Client)>)
    requires i < |clients|
    ensures row == Row(clients[i], clients[i + 1..], key)
  {
    row := [];
    ghost var all := Row(clients[i], clients[i + 1..], key);
    for j := i + 1 to |clients|
      invariant row + Row(clients[i], clients[j..], key) == all
    {
      RowGoesOn(row, clients[i], clients, j, key);
      if key(clients[i]) != key(clients[j]) {
        row := row + [(clients[i], clients[j])];
      }
    }
    assert clients[|clients|..] == [];
  }

  /** The nested loops of both comparators. */
  method ListMismatches<K(==)>(clients: seq<Client>, key: Client -> K) returns (pairs: seq<(Client, Client)>)
    ensures pairs == Mismatches(clients, key)
  {
    pairs := [];
    assert clients[0..] == clients;
    for i := 0 to |clients|
      invariant pairs + Mismatches(clients[i..], key) == Mismatches(clients, key)
    {
      assert clients[i..][1..] == clients[i + 1..];
      var row := ListRow(clients, i, key);
      ghost var later := Mismatches(clients[i + 1..], key);
      assert pairs + (row + later) == pairs + row + later;
      pairs := pairs + row;
    }
    assert clients[|clients|..] == [];
  }

  lemma {:induction false} InRowIff<K>(a: Client, later: seq<Client>, key: Client -> K, x: Client, y: Client)
    ensures (x, y) in Row(a, later, key) <==> x == a && y in later && key(a) != key(y)
  {
    if later != [] {
      InRowIff(a, later[1..], key, x, y);
    }
  }

  /** A pair is listed exactly if its clients stand in this order and have different things. */
  lemma {:induction false} ListedIff<K>(clients: seq<Client>, key: Client -> K, x: Client, y: Client)
    ensures (x, y) in Mismatches(clients, key) <==>
            exists i, j :: 0 <= i < j < |clients| && clients[i] == x && clients[j] == y && key(x) != key(y)
  {
    if clients != [] {
      var rest := clients[1..];
      InRowIff(clients[0], rest, key, x, y);
      ListedIff(rest, key, x, y);
      if i, j :| 0 <= i < j < |rest| && rest[i] == x && rest[j] == y && key(x) != key(y) {
        assert clients[i + 1] == x && clients[j + 1] == y;
      }
      if i, j :| 0 <= i < j < |clients| && clients[i] == x && clients[j] == y && key(x) != key(y) {
        assert clients[j] == rest[j - 1];
        if i > 0 {
          assert clients[i] == rest[i - 1];
        }
      }
    }
  }

  /** Nothing is listed exactly if all clients have the same, in whatever order they come. */
  lemma NothingListedIff<K>(clients: seq<Client>, key: Client -> K)
    ensures Mismatches(clients, key) == [] <==> forall x, y :: x in clients && y in clients ==> key(x) == key(y)
  {
    if Mismatches(clients, key) == [] {
      forall x, y | x in clients && y in clients
        ensures key(x) == key(y)
      {
        var i :| 0 <= i < |clients| && clients[i] == x;
        var j :| 0 <= j < |clients| && clients[j] == y;
        ListedIff(clients, key, x, y);
        ListedIff(clients, key, y, x);
        assert i < j || j < i || x == y;
      }
    } else {
      var p := Mismatches(clients, key)[0];
      assert (p.0, p.1) in Mismatches(clients, key);
      ListedIff(clients, key, p.0, p.1);
    }
  }

  /************************************* Counting pairs *************************************/

  function Choose2(n: nat): nat {
    if n == 0 then 0 else Choose2(n - 1) + (n - 1)
  }

  lemma {:induction false} Choose2Closed(n: nat)
    ensures 2 * Choose2(n) == n * (n - 1)
  {
    if n > 0 {
      Choose2Closed(n - 1);
    }
  }

  function PairsWithin<H>(groups: seq<Group<H>>): nat {
    if groups == [] then 0 else Choose2(|groups[0].actors|) + PairsWithin(groups[1..])
  }

  /** The pairs of clients that have the same. */
  function Agreeing<K(==)>(clients: seq<Client>, key: Client -> K): nat {
    if clients == [] then 0 else |Sharing(clients[1..], key, key(clients[0]))| + Agreeing(clients[1..], key)
  }

  lemma {:induction false} SharingCons<K>(a: Client, rest: seq<Client>, key: Client -> K, h: K)
    ensures |Sharing([a] + rest, key, h)| == (if key(a) == h then 1 else 0) + |Sharing(rest, key, h)|
  {
    var all := [a] + rest;
    if rest == [] {
      assert all[..0] == [];
    } else {
      assert all[..|all| - 1] == [a] + rest[..|rest| - 1];
      SharingCons(a, rest[..|rest| - 1], key, h);
    }
  }

  lemma {:induction false} RowSize<K>(a: Client, later: seq<Client>, key: Client -> K)
    ensures |Row(a, later, key)| + |Sharing(later, key, key(a))| == |later|
  {
    if later != [] {
      RowSize(a, later[1..], key);
      assert later == [later[0]] + later[1..];
      SharingCons(later[0], later[1..], key, key(a));
    }
  }

  lemma {:induction false} EveryPairOnce<K>(clients: seq<Client>, key: Client -> K)
    ensures |Mismatches(clients, key)| + Agreeing(clients, key) == Choose2(|clients|)
  {
    if clients != [] {
      RowSize(clients[0], clients[1..], key);
      EveryPairOnce(clients[1..], key);
    }
  }

  lemma {:induction false} AgreeingSnoc<K>(clients: seq<Client>, last: Client, key: Client -> K)
    ensures Agreeing(clients + [last], key) == Agreeing(clients, key) + |Sharing(clients, key, key(last))|
  {
    if clients == [] {
      assert (clients + [last])[1..] == [];
    } else {
      var a, rest := clients[0], clients[1..];
      assert (clients + [last])[1..] == rest + [last];
      AgreeingSnoc(rest, last, key);
      assert (rest + [last])[..|rest|] == rest;
      assert clients == [a] + rest;
      SharingCons(a, rest, key, key(last));
    }
  }

  lemma {:induction false} AddToPairs<H>(groups: seq<Group<H>>, h: H, c: Client)
    ensures PairsWithin(AddTo(groups, h, c)) == PairsWithin(groups) + |Lookup(groups, h)|
  {
    if groups == [] {
      assert AddTo(groups, h, c)[1..] == [];
    } else {
      AddToPairs(groups[1..], h, c);
      assert AddTo(groups, h, c)[1..] == if groups[0].hash == h then groups[1..] else AddTo(groups[1..], h, c);
    }
  }

  lemma {:induction false} PairsWithinIsAgreeing<H>(clients: seq<Client>, key: Client -> H)
    ensures PairsWithin(GroupBy(clients, key)) == Agreeing(clients, key)
  {
    if clients != [] {
      var front, last := clients[..|clients| - 1], clients[|clients| - 1];
      assert clients == front + [last];
      PairsWithinIsAgreeing(front, key);
      AddToPairs(GroupBy(front, key), key(last), last);
      GroupsPartition(front, key);
      assert Lookup(GroupBy(front, key), key(last)) == Sharing(front, key, key(last));
      AgreeingSnoc(front, last, key);
    }
  }

  /*************************************** The record ***************************************/

  /** What a client wrote, if anything. */
  function Content<B>(blobs: map<Client, B>): Client -> Option<B> {
    c => if c in blobs then Some(blobs[c]) else None
  }

  function Digest<B, H>(blobs: map<Client, B>, hash: B -> H): Client -> Option<H> {
    c => if c in blobs then Some(hash(blobs[c])) else None
  }

  function Present<B>(dirs: seq<Client>, blobs: map<Client, B>): seq<Client> {
    if dirs == [] then []
    else
      var last := dirs[|dirs| - 1];
      Present(dirs[..|dirs| - 1], blobs) + if last in blobs then [last] else []
  }

  datatype Record<H> = Record(present: seq<Client>, byteGroups: seq<Group<Option<H>>>,
      mismatches: seq<(Client, Client)>)

  /** `CLIENT_DIRS.index(c)` */
  function IndexIn(dirs: seq<Client>): Client -> nat {
    (c: Client) => Index(dirs, c)
  }

  function Index(dirs: seq<Client>, c: Client): nat {
    if dirs == [] || dirs[0] == c then 0 else 1 + Index(dirs[1..], c)
  }

  lemma {:induction false} IndexOf(dirs: seq<Client>, i: nat)
    requires Distinct(dirs) && i < |dirs|
    ensures Index(dirs, dirs[i]) == i
  {
    if i > 0 {
      IndexOf(dirs[1..], i - 1);
    }
  }

  lemma {:induction false} PresentAscends<B>(dirs: seq<Client>, blobs: map<Client, B>, n: nat)
    requires Distinct(dirs) && n <= |dirs|
    ensures Ascending(Present(dirs[..n], blobs), IndexIn(dirs))
    ensures forall c :: c in Present(dirs[..n], blobs) ==> Index(dirs, c) < n
  {
    if n > 0 {
      PresentAscends(dirs, blobs, n - 1);
      IndexOf(dirs, n - 1);
      assert dirs[..n][..n - 1] == dirs[..n - 1];
      AscendingSnoc(Present(dirs[..n - 1], blobs), dirs[n - 1], IndexIn(dirs));
      assert Present(dirs[..n - 1], blobs) + [] == Present(dirs[..n - 1], blobs);
    }
  }

  /** The list of byte groups of a record: the groups by their least client, each with its clients in order. */
  function Ordered<H>(groups: seq<Group<H>>, rank: Client -> nat): seq<Group<H>> {
    var inOrder := SortBy(groups, LeastOfGroup(rank));
    seq(|inOrder|, i requires 0 <= i < |inOrder| => Group(inOrder[i].hash, SortBy(inOrder[i].actors, rank)))
  }

  lemma OrderedAlready<H>(clients: seq<Client>, key: Client -> H, rank: Client -> nat)
    requires Ascending(clients, rank)
    ensures Ordered(GroupBy(clients, key), rank) == GroupBy(clients, key)
  {
    SortingChangesNothing(clients, key, rank);
    var groups := GroupBy(clients, key);
    forall i | 0 <= i < |groups|
      ensures SortBy(groups[i].actors, rank) == groups[i].actors
    {
      assert groups[i] in groups;
    }
  }

  /** The byte groups of the present clients, as they come out of the dictionary and the sorting. */
  method ByteGroups<H(==)>(dirs: seq<Client>, present: seq<Client>, key: Client -> H) returns (groups: seq<Group<H>>)
    requires Ascending(present, IndexIn(dirs))
    ensures groups == GroupBy(present, key)
  {
    groups := [];
    for i := 0 to |present|
      invariant groups == GroupBy(present[..i], key)
    {
      assert present[..i + 1][..i] == present[..i];
      groups := AddTo(groups, key(present[i]), present[i]);
    }
    assert present[..|present|] == present;
    OrderedAlready(present, key, IndexIn(dirs));
    groups := Ordered(groups, IndexIn(dirs));
  }

  /** `build_case_record`; the number of groups does not depend on their order. */
  method BuildCaseRecord<B(==), H(==)>(dirs: seq<Client>, blobs: map<Client, B>, hash: B -> H)
        returns (record: Option<Record<H>>)
    requires Distinct(dirs)
    ensures record.None? <==> |Present(dirs, blobs)| < 2 || SameForAll(Present(dirs, blobs), Digest(blobs, hash))
    ensures record.Some? ==>
              && record.value.present == Present(dirs, blobs)
              && record.value.byteGroups == GroupBy(Present(dirs, blobs), Digest(blobs, hash))
              && record.value.mismatches == Mismatches(Present(dirs, blobs), Content(blobs))
  {
    var present: seq<Client> := [];
    for i := 0 to |dirs|
      invariant present == Present(dirs[..i], blobs)
    {
      assert dirs[..i + 1][..i] == dirs[..i];
      if dirs[i] in blobs {
        present := present + [dirs[i]];
      }
    }
    assert dirs[..|dirs|] == dirs;
    if |present| < 2 {
      return None;
    }
    PresentAscends(dirs, blobs, |dirs|);
    var groups := ByteGroups(dirs, present, Digest(blobs, hash));
    OneGroupIff(present, Digest(blobs, hash));
    if |groups| == 1 {
      return None;
    }
    var mismatches := ListMismatches(present, Content(blobs));
    return Some(Record(present, groups, mismatches));
  }

  ghost predicate SameForAll<K>(clients: seq<Client>, key: Client -> K) {
    forall x, y :: x in clients && y in clients ==> key(x) == key(y)
  }

  lemma OneGroupIff<H>(clients: seq<Client>, key: Client -> H)
    requires clients != []
    ensures |GroupBy(clients, key)| == 1 <==> SameForAll(clients, key)
  {
    GroupsPartition(clients, key);
    var groups := GroupBy(clients, key);
    var h := key(clients[0]);
    assert clients[0] in clients && h in Hashes(groups);
    if |groups| == 1 {
      forall x | x in clients
        ensures key(x) == groups[0].hash
      {
        assert key(x) in Hashes(groups);
      }
    }
    assert |groups| > 1 ==> groups[0].hash != groups[1].hash;
    assert |groups| > 1 ==> groups[0].hash in Hashes(groups) && groups[1].hash in Hashes(groups);
    if SameForAll(clients, key) {
      assert Hashes(groups) == {h};
    }
  }

  datatype Differences = NoSuccessfulClients | OnlySucceeded(client: Client) | Pairs(pairs: seq<(Client, Client)>)

  /** The comparison of `compare_ssz_files_in_output` for one index; `Pairs([])` is written as "None". */
  method CompareSszFiles<B(==)>(clients: seq<Client>, files: map<Client, B>) returns (differences: Differences)
    requires forall c :: c in clients ==> c in files
    ensures |clients| >= 2 ==> differences == Pairs(Mismatches(clients, Content(files)))
    ensures |clients| < 2 ==> differences == if clients == [] then NoSuccessfulClients else OnlySucceeded(clients[0])
  {
    if |clients| == 0 {
      return NoSuccessfulClients;
    } else if |clients| == 1 {
      return OnlySucceeded(clients[0]);
    }
    var pairs := ListMismatches(clients, Content(files));
    return Pairs(pairs);
  }

  /** The hash tells the blobs of these clients apart. */
  ghost predicate NoCollision<B, H>(clients: seq<Client>, blobs: map<Client, B>, hash: B -> H) {
    forall x, y :: x in clients && y in clients && x in blobs && y in blobs && hash(blobs[x]) == hash(blobs[y])
      ==> blobs[x] == blobs[y]
  }

  lemma {:induction false} PresentIff<B>(dirs: seq<Client>, blobs: map<Client, B>)
    ensures forall c :: c in Present(dirs, blobs) <==> c in dirs && c in blobs
  {
    if dirs != [] {
      PresentIff(dirs[..|dirs| - 1], blobs);
      assert dirs == dirs[..|dirs| - 1] + [dirs[|dirs| - 1]];
    }
  }

  /**
   The listed pairs are those with clients in different groups, for all pairs, exactly if no two
   different blobs collide.
   */
  lemma ListedAcrossGroupsIff<B, H>(clients: seq<Client>, blobs: map<Client, B>, hash: B -> H)
    requires forall c :: c in clients ==> c in blobs
    ensures (forall x, y ::
               (x, y) in Mismatches(clients, Content(blobs)) <==> (x, y) in Mismatches(clients, Digest(blobs, hash)))
            <==> NoCollision(clients, blobs, hash)
  {
    var content, digest := Content(blobs), Digest(blobs, hash);
    if NoCollision(clients, blobs, hash) {
      MismatchesCong(clients, content, digest);
    } else {
      var x, y :| x in clients && y in clients && hash(blobs[x]) == hash(blobs[y]) && blobs[x] != blobs[y];
      var i :| 0 <= i < |clients| && clients[i] == x;
      var j :| 0 <= j < |clients| && clients[j] == y;
      var a, b := if i < j then x else y, if i < j then y else x;
      ListedIff(clients, content, a, b);
      ListedIff(clients, digest, a, b);
      assert (a, b) in Mismatches(clients, content) && (a, b) !in Mismatches(clients, digest);
    }
  }

  lemma {:induction false} RowCong<K, L>(a: Client, later: seq<Client>, k: Client -> K, l: Client -> L)
    requires forall y :: y in later ==> (k(a) == k(y) <==> l(a) == l(y))
    ensures Row(a, later, k) == Row(a, later, l)
  {
    if later != [] {
      RowCong(a, later[1..], k, l);
    }
  }

  lemma {:induction false} MismatchesCong<K, L>(clients: seq<Client>, k: Client -> K, l: Client -> L)
    requires forall x, y :: x in clients && y in clients ==> (k(x) == k(y) <==> l(x) == l(y))
    ensures Mismatches(clients, k) == Mismatches(clients, l)
  {
    if clients != [] {
      RowCong(clients[0], clients[1..], k, l);
      MismatchesCong(clients[1..], k, l);
    }
  }

  /** The number of listed pairs: all pairs less those within a group. */
  lemma MismatchCount<B, H>(clients: seq<Client>, blobs: map<Client, B>, hash: B -> H)
    requires (forall c :: c in clients ==> c in blobs) && NoCollision(clients, blobs, hash)
    ensures |Mismatches(clients, Content(blobs))|
            == Choose2(|clients|) - PairsWithin(GroupBy(clients, Digest(blobs, hash)))
    ensures 2 * |Mismatches(clients, Content(blobs))|
            == |clients| * (|clients| - 1) - 2 * PairsWithin(GroupBy(clients, Digest(blobs, hash)))
  {
    Choose2Closed(|clients|);
    MismatchesCong(clients, Content(blobs), Digest(blobs, hash));
    EveryPairOnce(clients, Digest(blobs, hash));
    PairsWithinIsAgreeing(clients, Digest(blobs, hash));
  }

  /** On the same blobs, a record is written exactly if the CSV comparison, in its own order, lists a difference. */
  lemma RecordAgreesWithCsv<B, H>(dirs: seq<Client>, clients: seq<Client>, blobs: map<Client, B>, hash: B -> H)
    requires forall c :: c in clients <==> c in Present(dirs, blobs)
    requires NoCollision(clients, blobs, hash)
    ensures SameForAll(Present(dirs, blobs), Digest(blobs, hash)) <==> Mismatches(clients, Content(blobs)) == []
  {
    NothingListedIff(clients, Content(blobs));
    SameIff(clients, Present(dirs, blobs), Content(blobs), Digest(blobs, hash));
  }

  /**
   Whether all clients have the same depends neither on their order nor on which of two equivalent keys
   is looked at.
   */
  lemma SameIff<K, L>(clients: seq<Client>, others: seq<Client>, k: Client -> K, l: Client -> L)
    requires forall c :: c in clients <==> c in others
    requires forall x, y :: x in clients && y in clients ==> (k(x) == k(y) <==> l(x) == l(y))
    ensures SameForAll(others, l) <==> forall x, y :: x in clients && y in clients ==> k(x) == k(y)
  {
  }
}
