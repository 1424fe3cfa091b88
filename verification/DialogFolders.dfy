/** Dialog peers and their typed keys, and the merge of peer lists
    (src/setup_provision.rs). */
module DialogFolders {
  import opened Basics

  // ---------------------------------------------------------------- peers

  datatype PeerKey = UserKey(id: int) | ChannelKey(id: int) | ChatKey(id: int)

  datatype DialogPeer =
    | User(id: int, accessHash: int)
    | Channel(id: int, accessHash: int)
    | Chat(id: int)
  {
    function Key(): PeerKey {
      match this
      case User(id, _) => UserKey(id)
      case Channel(id, _) => ChannelKey(id)
      case Chat(id) => ChatKey(id)
    }
  }

  function Rank(k: PeerKey): int {
    match k
    case UserKey(_) => 0
    case ChannelKey(_) => 1
    case ChatKey(_) => 2
  }

  /** The derived order: users before channels before chats, then by id. */
  predicate Before(a: PeerKey, b: PeerKey) {
    Rank(a) < Rank(b) || (Rank(a) == Rank(b) && a.id < b.id)
  }

  lemma BeforeIsStrictTotalOrder(a: PeerKey, b: PeerKey, c: PeerKey)
    ensures !Before(a, a)
    ensures Before(a, b) && Before(b, c) ==> Before(a, c)
    ensures a != b <==> Before(a, b) || Before(b, a)
  {
  }

  /** Users come before channels and channels before chats; within one kind the
      smaller id comes first. */
  lemma OrderOfKinds(i: int, j: int)
    ensures Before(UserKey(i), ChannelKey(j)) && Before(ChannelKey(i), ChatKey(j)) && Before(UserKey(i), ChatKey(j))
    ensures (Before(UserKey(i), UserKey(j)) <==> i < j) && (Before(ChannelKey(i), ChannelKey(j)) <==> i < j)
    ensures Before(ChatKey(i), ChatKey(j)) <==> i < j
  {
  }

  /** Two peers have one key exactly when they are of one kind with one id; the
      access hash does not matter. */
  lemma SameKeyIff(p: DialogPeer, q: DialogPeer)
    ensures p.Key() == q.Key() <==>
      p.id == q.id && (p.User? <==> q.User?) && (p.Channel? <==> q.Channel?) && (p.Chat? <==> q.Chat?)
    ensures (p.User? <==> p.Key().UserKey?) && (p.Channel? <==> p.Key().ChannelKey?) && p.Key().id == p.id
  {
  }

  function Keys(peers: seq<DialogPeer>): (r: set<PeerKey>)
    ensures forall k :: k in r <==> exists p :: p in peers && p.Key() == k
  {
    set p | p in peers :: p.Key()
  }

  ghost predicate UniqueKeys(peers: seq<DialogPeer>) {
    forall i, j :: 0 <= i < j < |peers| ==> peers[i].Key() != peers[j].Key()
  }

  ghost predicate Sorted(peers: seq<DialogPeer>) {
    forall i, j :: 0 <= i < j < |peers| ==> Before(peers[i].Key(), peers[j].Key())
  }

  /** The peers by key; the last one wins where a key repeats. */
  ghost function ByKey(peers: seq<DialogPeer>): (m: map<PeerKey, DialogPeer>)
    ensures m.Keys == Keys(peers)
    ensures forall k :: k in m ==> m[k] in peers && m[k].Key() == k
  {
    if peers == [] then map[]
    else
      var last := peers[|peers| - 1];
      assert peers == peers[..|peers| - 1] + [last];
      ByKey(peers[..|peers| - 1])[last.Key() := last]
  }

  lemma {:induction false} ByKeyUnique(peers: seq<DialogPeer>, i: nat)
    requires UniqueKeys(peers) && i < |peers|
    ensures peers[i].Key() in Keys(peers) && ByKey(peers)[peers[i].Key()] == peers[i]
    decreases |peers|
  {
    var n := |peers| - 1;
    if i < n {
      ByKeyUnique(peers[..n], i);
    }
  }

  /** The keys as a set, or nothing when a key repeats. */
  function NormalizedPeerSet(peers: seq<DialogPeer>): Option<set<PeerKey>> {
    if |Keys(peers)| == |peers| then Some(Keys(peers)) else None
  }

  lemma KeysAppend(peers: seq<DialogPeer>, last: DialogPeer)
    ensures Keys(peers + [last]) == Keys(peers) + {last.Key()}
  {
    assert forall p :: p in peers + [last] <==> p in peers || p == last;
  }

  lemma UniqueAppend(peers: seq<DialogPeer>, last: DialogPeer)
    ensures UniqueKeys(peers + [last]) <==> UniqueKeys(peers) && last.Key() !in Keys(peers)
  {
    var all, n := peers + [last], |peers|;
    assert forall i :: 0 <= i < n ==> all[i] == peers[i];
    if UniqueKeys(all) {
      forall i | 0 <= i < n ensures peers[i].Key() != last.Key() {
        assert all[i].Key() != all[n].Key();
      }
    } else if UniqueKeys(peers) {
      var i, j :| 0 <= i < j < |all| && all[i].Key() == all[j].Key();
      assert j == n && all[i] in peers;
    }
  }

  lemma {:induction false} NormalizedIffUnique(peers: seq<DialogPeer>)
    ensures |Keys(peers)| <= |peers|
    ensures NormalizedPeerSet(peers).Some? <==> UniqueKeys(peers)
    ensures UniqueKeys(peers) ==> NormalizedPeerSet(peers) == Some(Keys(peers))
    decreases |peers|
  {
    if peers == [] {
      assert Keys(peers) == {};
    } else {
      var init, last := peers[..|peers| - 1], peers[|peers| - 1];
      assert peers == init + [last];
      NormalizedIffUnique(init);
      KeysAppend(init, last);
      UniqueAppend(init, last);
    }
  }

  // ---------------------------------------------------------------- merge

  /** A sorted list is determined by what it holds: the order a sort puts equal
      input in cannot matter, and neither can the sort. */
  lemma {:induction false} SortedIsDetermined(a: seq<DialogPeer>, b: seq<DialogPeer>)
    requires Sorted(a) && Sorted(b)
    requires forall p :: p in a <==> p in b
    ensures a == b
    decreases |a|
  {
    if a != [] {
      assert a[0] in b;
    }
    if b != [] {
      assert b[0] in a;
    }
    if a != [] {
      var n, m := |a| - 1, |b| - 1;
      assert a[n] in b && b[m] in a;
      assert a[n] == b[m];
      forall p ensures p in a[..n] <==> p in b[..m] {
        if p in a[..n] {
          assert p in b && p != a[n];
        }
        if p in b[..m] {
          assert p in a && p != b[m];
        }
      }
      SortedIsDetermined(a[..n], b[..m]);
      assert a == a[..n] + [a[n]] && b == b[..m] + [b[m]];
    }
  }

  function InsertByKey(peers: seq<DialogPeer>, peer: DialogPeer): (r: seq<DialogPeer>)
    ensures multiset(r) == multiset(peers) + multiset{peer}
  {
    if peers == [] then [peer]
    else
      var n := |peers| - 1;
      assert peers == peers[..n] + [peers[n]];
      if Before(peer.Key(), peers[n].Key()) then InsertByKey(peers[..n], peer) + [peers[n]]
      else peers + [peer]
  }

  /** `sort_unstable_by_key` on a list whose keys are unique. */
  function SortByKey(peers: seq<DialogPeer>): (r: seq<DialogPeer>)
    ensures multiset(r) == multiset(peers)
  {
    if peers == [] then []
    else
      var n := |peers| - 1;
      assert peers == peers[..n] + [peers[n]];
      InsertByKey(SortByKey(peers[..n]), peers[n])
  }

  lemma {:induction false} InsertSorted(peers: seq<DialogPeer>, peer: DialogPeer)
    requires Sorted(peers) && peer.Key() !in Keys(peers)
    ensures Sorted(InsertByKey(peers, peer))
    decreases |peers|
  {
    if peers != [] {
      var n := |peers| - 1;
      if Before(peer.Key(), peers[n].Key()) {
        InsertSorted(peers[..n], peer);
        SamePeers(InsertByKey(peers[..n], peer), peers[..n] + [peer]);
        assert forall p :: p in InsertByKey(peers[..n], peer) ==> Before(p.Key(), peers[n].Key());
      } else {
        assert peers[n] in peers && peers[n].Key() != peer.Key();
      }
    }
  }

  lemma SamePeers(a: seq<DialogPeer>, b: seq<DialogPeer>)
    requires multiset(a) == multiset(b)
    ensures forall p :: p in a <==> p in b
    ensures Keys(a) == Keys(b)
  {
    assert forall p :: p in a <==> p in multiset(a);
    assert forall p :: p in b <==> p in multiset(b);
  }

  lemma {:induction false} SortSorted(peers: seq<DialogPeer>)
    requires UniqueKeys(peers)
    ensures Sorted(SortByKey(peers))
    decreases |peers|
  {
    if peers != [] {
      var init, last := peers[..|peers| - 1], peers[|peers| - 1];
      assert peers == init + [last];
      UniqueAppend(init, last);
      SortSorted(init);
      SamePeers(SortByKey(init), init);
      InsertSorted(SortByKey(init), last);
    }
  }

  /** What `merge_peers` leaves: sorted by key, the union of both lists, the
      managed entry wherever both have one. */
  ghost predicate IsMerge(existing: seq<DialogPeer>, managed: seq<DialogPeer>, merged: seq<DialogPeer>) {
    Sorted(merged) && ByKey(merged) == ByKey(existing) + ByKey(managed)
  }

  /** In terms of peers: every managed one is there as it is, and of the others
      those that were there and have no managed one's key. */
  lemma MergeMeans(existing: seq<DialogPeer>, managed: seq<DialogPeer>, merged: seq<DialogPeer>)
    requires UniqueKeys(existing) && UniqueKeys(managed) && IsMerge(existing, managed, merged)
    ensures forall p :: p in merged <==> p in managed || (p in existing && forall q <- managed :: q.Key() != p.Key())
    ensures UniqueKeys(merged)
  {
    SortedUnique(merged);
    SortedPeersByKey(existing);
    SortedPeersByKey(managed);
    SortedPeersByKey(merged);
    hide ByKey;
    forall p ensures p in merged <==> p in managed || (p in existing && p.Key() !in Keys(managed)) {
      assert p.Key() in ByKey(merged) <==> p.Key() in ByKey(existing) || p.Key() in ByKey(managed);
    }
  }

  /** There is at most one such list. */
  lemma MergeIsDetermined(existing: seq<DialogPeer>, managed: seq<DialogPeer>, a: seq<DialogPeer>, b: seq<DialogPeer>)
    requires IsMerge(existing, managed, a) && IsMerge(existing, managed, b)
    ensures a == b
  {
    SortedPeersByKey(a);
    SortedPeersByKey(b);
    SortedIsDetermined(a, b);
  }

  lemma SortedUnique(peers: seq<DialogPeer>)
    requires Sorted(peers)
    ensures UniqueKeys(peers)
  {
  }

  lemma SortedPeersByKey(peers: seq<DialogPeer>)
    requires UniqueKeys(peers)
    ensures forall p :: p in peers <==> p.Key() in ByKey(peers) && ByKey(peers)[p.Key()] == p
  {
    forall p | p in peers ensures p.Key() in ByKey(peers) && ByKey(peers)[p.Key()] == p {
      var i :| 0 <= i < |peers| && peers[i] == p;
      ByKeyUnique(peers, i);
    }
  }

  /** Merging again changes nothing. */
  lemma MergeIsIdempotent(existing: seq<DialogPeer>, managed: seq<DialogPeer>, merged: seq<DialogPeer>)
    requires IsMerge(existing, managed, merged)
    ensures IsMerge(merged, managed, merged)
  {
    assert ByKey(existing) + ByKey(managed) + ByKey(managed) == ByKey(existing) + ByKey(managed);
  }

  datatype ProvisionError =
    | ResolveBot
    | StartBot
    | AppConfig
    | CreateGroup
    | Storage
    | GroupUnavailable
    | GroupChanged
    | GeneralTopicLookup
    | CreateTopic
    | InviteBot
    | PromoteBot
    | DialogFiltersRead
    | DialogFilterDecode
    | DialogFilterUpdate
    | DialogFilterOrder
    | DialogFilterVerify
    | FolderCapacityReached
    | FolderNameConflict
    | CommunityResolve
    | CommunityInvalidPeer
    | CommunityJoin
    | CommunityUnavailable

  /** The list is edited in place: known keys are replaced, new ones appended,
      and the whole is sorted. It fails exactly when a key already repeats. */
  method MergePeers(existing: seq<DialogPeer>, managed: seq<DialogPeer>)
    returns (r: Result<seq<DialogPeer>, ProvisionError>)
    ensures r.Ok? <==> UniqueKeys(existing)
    ensures r.Ok? ==> IsMerge(existing, managed, r.value)
    ensures r.Err? ==> r.error == DialogFilterDecode
  {
    NormalizedIffUnique(existing);
    if NormalizedPeerSet(existing).None? {
      return Err(DialogFilterDecode);
    }
    var peers := PutAll(existing, managed);
    SortSorted(peers);
    SortedUnique(SortByKey(peers));
    SameByKey(peers, SortByKey(peers));
    return Ok(SortByKey(peers));
  }

  method PutAll(existing: seq<DialogPeer>, managed: seq<DialogPeer>) returns (peers: seq<DialogPeer>)
    requires UniqueKeys(existing)
    ensures UniqueKeys(peers)
    ensures ByKey(peers) == ByKey(existing) + ByKey(managed)
  {
    peers := existing;
    var i := 0;
    assert managed[..0] == [];
    while i < |managed|
      invariant 0 <= i <= |managed|
      invariant UniqueKeys(peers)
      invariant ByKey(peers) == ByKey(existing) + ByKey(managed[..i])
    {
      peers := PutPeer(peers, managed[i]);
      AppendManaged(existing, managed, i);
      i := i + 1;
    }
    assert managed[..i] == managed;
  }

  /** Replaces the peer with that key, or appends it. */
  method PutPeer(peers: seq<DialogPeer>, peer: DialogPeer) returns (r: seq<DialogPeer>)
    requires UniqueKeys(peers)
    ensures UniqueKeys(r)
    ensures ByKey(r) == ByKey(peers)[peer.Key() := peer]
  {
    var at := Position(peers, peer.Key());
    if at < |peers| {
      ReplaceByKey(peers, at, peer);
      r := peers[at := peer];
    } else {
      UniqueAppend(peers, peer);
      AppendByKey(peers, peer);
      r := peers + [peer];
    }
  }

  lemma AppendManaged(existing: seq<DialogPeer>, managed: seq<DialogPeer>, i: nat)
    requires i < |managed|
    ensures ByKey(existing) + ByKey(managed[..i + 1])
         == (ByKey(existing) + ByKey(managed[..i]))[managed[i].Key() := managed[i]]
  {
    assert managed[..i + 1] == managed[..i] + [managed[i]];
    AppendByKey(managed[..i], managed[i]);
  }

  /** The index of the peer with this key, or the length. */
  method Position(peers: seq<DialogPeer>, key: PeerKey) returns (at: nat)
    ensures at <= |peers|
    ensures at < |peers| ==> peers[at].Key() == key
    ensures forall i :: 0 <= i < at ==> peers[i].Key() != key
    ensures at == |peers| ==> key !in Keys(peers)
  {
    at := 0;
    while at < |peers| && peers[at].Key() != key
      invariant at <= |peers|
      invariant forall i :: 0 <= i < at ==> peers[i].Key() != key
    {
      at := at + 1;
    }
  }

  lemma ReplaceKeys(peers: seq<DialogPeer>, at: nat, peer: DialogPeer)
    requires at < |peers| && peers[at].Key() == peer.Key()
    ensures Keys(peers[at := peer]) == Keys(peers)
    ensures UniqueKeys(peers) ==> UniqueKeys(peers[at := peer])
  {
    var replaced := peers[at := peer];
    assert forall i :: 0 <= i < |peers| ==> replaced[i].Key() == peers[i].Key();
    forall k ensures k in Keys(replaced) <==> k in Keys(peers) {
      if k in Keys(replaced) {
        var i :| 0 <= i < |peers| && replaced[i].Key() == k;
        assert peers[i] in peers;
      }
      if k in Keys(peers) {
        var i :| 0 <= i < |peers| && peers[i].Key() == k;
        assert replaced[i] in replaced;
      }
    }
  }

  lemma ReplaceByKey(peers: seq<DialogPeer>, at: nat, peer: DialogPeer)
    requires UniqueKeys(peers) && at < |peers| && peers[at].Key() == peer.Key()
    ensures UniqueKeys(peers[at := peer])
    ensures ByKey(peers[at := peer]) == ByKey(peers)[peer.Key() := peer]
  {
    hide ByKey, UniqueKeys;
    var replaced := peers[at := peer];
    ReplaceKeys(peers, at, peer);
    assert peers[at] in peers;
    assert ByKey(replaced).Keys == ByKey(peers)[peer.Key() := peer].Keys;
    forall k | k in Keys(peers) ensures ByKey(replaced)[k] == if k == peer.Key() then peer else ByKey(peers)[k] {
      var i :| 0 <= i < |peers| && peers[i].Key() == k;
      ReplaceOne(peers, at, peer, i);
    }
  }

  lemma ReplaceOne(peers: seq<DialogPeer>, at: nat, peer: DialogPeer, i: nat)
    requires UniqueKeys(peers) && at < |peers| && peers[at].Key() == peer.Key() && i < |peers|
    requires UniqueKeys(peers[at := peer])
    ensures peers[i].Key() in Keys(peers) && peers[i].Key() in Keys(peers[at := peer])
    ensures var k := peers[i].Key();
      k in ByKey(peers) && ByKey(peers[at := peer])[k] == if k == peer.Key() then peer else ByKey(peers)[k]
  {
    var replaced := peers[at := peer];
    assert replaced[i].Key() == peers[i].Key();
    ByKeyUnique(replaced, i);
    ByKeyUnique(peers, i);
    assert i != at ==> peers[i].Key() != peers[at].Key();
  }

  lemma AppendByKey(peers: seq<DialogPeer>, peer: DialogPeer)
    ensures ByKey(peers + [peer]) == ByKey(peers)[peer.Key() := peer]
  {
    assert (peers + [peer])[..|peers|] == peers;
  }

  lemma SameByKey(a: seq<DialogPeer>, b: seq<DialogPeer>)
    requires UniqueKeys(a) && UniqueKeys(b) && multiset(a) == multiset(b)
    ensures ByKey(a) == ByKey(b)
  {
    SamePeers(a, b);
    SortedPeersByKey(a);
    SortedPeersByKey(b);
    forall k | k in ByKey(a) ensures ByKey(a)[k] == ByKey(b)[k] {
      assert ByKey(a)[k] in a;
    }
  }
}
