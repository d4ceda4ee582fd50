/** The peer directory with its inverted index from capability names to peers. */
module Discovery {

  class PeerInfo {
    const id: string
    const capabilities: seq<string>
    var lastSeen: int

    constructor (id: string, capabilities: seq<string>, now: int)
      ensures this.id == id && this.capabilities == capabilities && lastSeen == now
    {
      this.id := id;
      this.capabilities := capabilities;
      lastSeen := now;
    }
  }

  type Peers = map<string, PeerInfo>

  type Index = map<string, map<string, PeerInfo>>

  /** The peer listed under a capability with that identifier, if any. */
  function At(index: Index, cap: string, id: string): PeerInfo? {
    if cap in index && id in index[cap] then index[cap][id] else null
  }

  // ----- What the index promises -----

  /** Every live peer is listed, as it is now, under each of its capabilities. */
  ghost predicate Complete(peers: Peers, index: Index) {
    && (forall id | id in peers :: peers[id].id == id)
    && (forall id, c | id in peers && c in peers[id].capabilities :: At(index, c, id) == peers[id])
  }

  ghost predicate NoEmptyBucket(index: Index) {
    forall c | c in index :: index[c] != map[]
  }

  /** Buckets hold peers under their own identifiers. */
  ghost predicate Keyed(index: Index) {
    forall c, id | At(index, c, id) != null :: At(index, c, id).id == id
  }

  /** Nothing else is listed. */
  ghost predicate Exact(peers: Peers, index: Index) {
    forall c, id | At(index, c, id) != null :: id in peers && At(index, c, id) == peers[id] && c in peers[id].capabilities
  }

  // ----- Index operations -----

  function Bucket(index: Index, cap: string): Peers {
    if cap in index then index[cap] else map[]
  }

  function Add(index: Index, cap: string, p: PeerInfo): Index {
    index[cap := Bucket(index, cap)[p.id := p]]
  }

  function AddAll(index: Index, caps: seq<string>, p: PeerInfo): Index {
    if caps == [] then index else Add(AddAll(index, caps[..|caps| - 1], p), caps[|caps| - 1], p)
  }

  /** Takes a peer out of a bucket and drops the bucket when it is empty. */
  function Remove(index: Index, cap: string, id: string): Index {
    if cap !in index then index
    else if index[cap] - {id} == map[] then index - {cap}
    else index[cap := index[cap] - {id}]
  }

  function RemoveAll(index: Index, caps: seq<string>, id: string): Index {
    if caps == [] then index else Remove(RemoveAll(index, caps[..|caps| - 1], id), caps[|caps| - 1], id)
  }

  lemma AddFacts(index: Index, cap: string, p: PeerInfo)
    ensures forall c, id :: At(Add(index, cap, p), c, id) == if c == cap && id == p.id then p else At(index, c, id)
    ensures NoEmptyBucket(index) ==> NoEmptyBucket(Add(index, cap, p))
  {
    assert p.id in Add(index, cap, p)[cap];
  }

  lemma {:induction false} AddAllFacts(index: Index, caps: seq<string>, p: PeerInfo)
    ensures forall c, id :: At(AddAll(index, caps, p), c, id) == if c in caps && id == p.id then p else At(index, c, id)
    ensures NoEmptyBucket(index) ==> NoEmptyBucket(AddAll(index, caps, p))
  {
    if caps != [] {
      AddAllFacts(index, caps[..|caps| - 1], p);
      AddFacts(AddAll(index, caps[..|caps| - 1], p), caps[|caps| - 1], p);
    }
  }

  lemma RemoveFacts(index: Index, cap: string, id: string)
    ensures forall c, i :: At(Remove(index, cap, id), c, i) == if c == cap && i == id then null else At(index, c, i)
    ensures NoEmptyBucket(index) ==> NoEmptyBucket(Remove(index, cap, id))
  {
    if cap in index {
      var rest := index[cap] - {id};
      assert forall i :: i in rest <==> i in index[cap] && i != id;
    }
  }

  lemma {:induction false} RemoveAllFacts(index: Index, caps: seq<string>, id: string)
    ensures forall c, i :: At(RemoveAll(index, caps, id), c, i) == if c in caps && i == id then null else At(index, c, i)
    ensures NoEmptyBucket(index) ==> NoEmptyBucket(RemoveAll(index, caps, id))
  {
    if caps != [] {
      RemoveAllFacts(index, caps[..|caps| - 1], id);
      RemoveFacts(RemoveAll(index, caps[..|caps| - 1], id), caps[|caps| - 1], id);
    }
  }

  /** Registering over a live peer keeps its old capabilities. */
  predicate KeepsCapabilities(peers: Peers, p: PeerInfo) {
    p.id in peers ==> forall c | c in peers[p.id].capabilities :: c in p.capabilities
  }

  /** Registration always keeps the index complete; it keeps it exact if and only if it drops no capability of a live peer. */
  lemma {:induction false} RegisterEffect(peers: Peers, index: Index, p: PeerInfo)
    requires Complete(peers, index)
    ensures Complete(peers[p.id := p], AddAll(index, p.capabilities, p))
    ensures Exact(peers, index) ==> (Exact(peers[p.id := p], AddAll(index, p.capabilities, p)) <==> KeepsCapabilities(peers, p))
  {
    var peers', index' := peers[p.id := p], AddAll(index, p.capabilities, p);
    AddAllFacts(index, p.capabilities, p);
    if Exact(peers, index) {
      if KeepsCapabilities(peers, p) {
        assert Exact(peers', index');
      } else {
        var c :| c in peers[p.id].capabilities && c !in p.capabilities;
        assert At(index', c, p.id) == peers[p.id];
      }
    }
  }

  lemma {:induction false} UnregisterEffect(peers: Peers, index: Index, id: string)
    requires Complete(peers, index) && id in peers
    ensures Complete(peers - {id}, RemoveAll(index, peers[id].capabilities, id))
    ensures Exact(peers, index) ==> Exact(peers - {id}, RemoveAll(index, peers[id].capabilities, id))
  {
    RemoveAllFacts(index, peers[id].capabilities, id);
  }

  /** A complete, exact index without empty buckets is determined by the peers. */
  lemma ExactIndexIsUnique(peers: Peers, a: Index, b: Index)
    requires Complete(peers, a) && Exact(peers, a) && NoEmptyBucket(a)
    requires Complete(peers, b) && Exact(peers, b) && NoEmptyBucket(b)
    ensures a == b
  {
    forall c, id ensures At(a, c, id) == At(b, c, id) {
    }
    BucketsAgree(a, b);
    BucketsAgree(b, a);
  }

  lemma BucketsAgree(a: Index, b: Index)
    requires NoEmptyBucket(a) && forall c, id :: At(a, c, id) == At(b, c, id)
    ensures forall c | c in a :: c in b && a[c] == b[c]
  {
    forall c | c in a ensures c in b && a[c] == b[c] {
      var some :| some in a[c];
      assert At(b, c, some) == a[c][some];
      forall id ensures id in a[c] <==> id in b[c] {
        assert At(a, c, id) == At(b, c, id);
      }
      forall id | id in a[c] ensures a[c][id] == b[c][id] {
        assert At(a, c, id) == At(b, c, id);
      }
    }
  }

  // ----- Lookup -----

  /** Listed under every required capability. */
  predicate ListedUnderAll(index: Index, required: seq<string>, id: string) {
    forall c | c in required :: At(index, c, id) != null
  }

  predicate HasAll(p: PeerInfo, required: seq<string>) {
    forall c | c in required :: c in p.capabilities
  }

  /** What a lookup finds: all peers if nothing is required, else the first bucket's entries listed everywhere. */
  function Found(peers: Peers, index: Index, required: seq<string>): Peers {
    if required == [] then peers
    else if required[0] !in index then map[]
    else map id | id in index[required[0]] && ListedUnderAll(index, required, id) :: index[required[0]][id]
  }

  /** No qualifying live peer is missed. */
  lemma LookupMissesNobody(peers: Peers, index: Index, required: seq<string>, id: string)
    requires Complete(peers, index) && id in peers && HasAll(peers[id], required)
    ensures id in Found(peers, index, required) && Found(peers, index, required)[id] == peers[id]
  {
    if required != [] {
      assert required[0] in required;
      assert At(index, required[0], id) == peers[id];
    }
  }

  /** The live peers that have everything required. */
  function Qualifying(peers: Peers, required: seq<string>): Peers {
    map id | id in peers && HasAll(peers[id], required) :: peers[id]
  }

  /** With an exact index the answer is exactly the live peers that have everything required. */
  lemma LookupIsExact(peers: Peers, index: Index, required: seq<string>)
    requires Complete(peers, index) && Exact(peers, index)
    ensures Found(peers, index, required) == Qualifying(peers, required)
  {
    var found := Found(peers, index, required);
    forall id | id in found ensures id in peers && HasAll(peers[id], required) && found[id] == peers[id] {
      if required != [] {
        assert required[0] in required && At(index, required[0], id) == found[id];
        forall c | c in required ensures c in peers[id].capabilities {
          assert At(index, c, id) != null;
        }
      }
    }
    forall id | id in peers && HasAll(peers[id], required) ensures id in found {
      LookupMissesNobody(peers, index, required, id);
    }
  }

  ghost predicate LookupsExact(peers: Peers, index: Index) {
    forall required: seq<string> :: Found(peers, index, required) == Qualifying(peers, required)
  }

  /** An entry the index should not have shows in the lookup for its capability alone. */
  lemma StrayEntryIsFound(peers: Peers, index: Index, c: string, id: string)
    requires At(index, c, id) != null
    requires !(id in peers && At(index, c, id) == peers[id] && c in peers[id].capabilities)
    ensures Found(peers, index, [c]) != Qualifying(peers, [c])
  {
    var found := Found(peers, index, [c]);
    assert id in found && found[id] == At(index, c, id);
    if id in Qualifying(peers, [c]) {
      assert c in [c] && HasAll(peers[id], [c]);
    }
  }

  /** Every lookup is exact if and only if the index is. */
  lemma LookupsExactIffIndexExact(peers: Peers, index: Index)
    requires Complete(peers, index)
    ensures LookupsExact(peers, index) <==> Exact(peers, index)
  {
    if Exact(peers, index) {
      forall required: seq<string> ensures Found(peers, index, required) == Qualifying(peers, required) {
        LookupIsExact(peers, index, required);
      }
    } else {
      var c, id :| At(index, c, id) != null && !(id in peers && At(index, c, id) == peers[id] && c in peers[id].capabilities);
      StrayEntryIsFound(peers, index, c, id);
    }
  }

  /** A registration keeps all lookups exact if and only if it drops no capability of a live peer. */
  lemma {:induction false} RegistrationKeepsLookups(peers: Peers, index: Index, p: PeerInfo)
    requires Complete(peers, index) && LookupsExact(peers, index)
    ensures LookupsExact(peers[p.id := p], AddAll(index, p.capabilities, p)) <==> KeepsCapabilities(peers, p)
  {
    LookupsExactIffIndexExact(peers, index);
    RegisterEffect(peers, index, p);
    LookupsExactIffIndexExact(peers[p.id := p], AddAll(index, p.capabilities, p));
  }

  // ----- Whole runs -----

  /** A clean-up is a series of removals. */
  datatype Op = Register(peer: PeerInfo) | Unregister(id: string)

  datatype Directory = Directory(peers: Peers, index: Index)

  function Apply(d: Directory, op: Op): Directory {
    match op
    case Register(p) => Directory(d.peers[p.id := p], AddAll(d.index, p.capabilities, p))
    case Unregister(id) =>
      if id in d.peers then Directory(d.peers - {id}, RemoveAll(d.index, d.peers[id].capabilities, id)) else d
  }

  function RunOps(ops: seq<Op>): Directory {
    if ops == [] then Directory(map[], map[]) else Apply(RunOps(ops[..|ops| - 1]), ops[|ops| - 1])
  }

  /** No registration of the run drops a capability of a live peer. */
  predicate Keeping(ops: seq<Op>) {
    forall i | 0 <= i < |ops| && ops[i].Register? :: KeepsCapabilities(RunOps(ops[..i]).peers, ops[i].peer)
  }

  /** After any run lookups miss nobody, and after a keeping run they return exactly the live peers with all that is required. */
  lemma {:induction false} RunsKeepIndex(ops: seq<Op>)
    ensures var d := RunOps(ops); Complete(d.peers, d.index) && NoEmptyBucket(d.index) && (Keeping(ops) ==> Exact(d.peers, d.index))
  {
    if ops != [] {
      var n := |ops| - 1;
      var d, op := RunOps(ops[..n]), ops[n];
      RunsKeepIndex(ops[..n]);
      if Keeping(ops) {
        KeepingPrefix(ops, n);
      }
      match op
      case Register(p) =>
        RegisterEffect(d.peers, d.index, p);
        AddAllFacts(d.index, p.capabilities, p);
      case Unregister(id) =>
        if id in d.peers {
          UnregisterEffect(d.peers, d.index, id);
          RemoveAllFacts(d.index, d.peers[id].capabilities, id);
        }
    }
  }

  lemma {:induction false} LookupAfterRun(ops: seq<Op>, required: seq<string>)
    ensures var d := RunOps(ops); var found := Found(d.peers, d.index, required);
      && (forall id | id in d.peers && HasAll(d.peers[id], required) :: id in found && found[id] == d.peers[id])
      && (Keeping(ops) ==> found == Qualifying(d.peers, required))
  {
    var d := RunOps(ops);
    RunsKeepIndex(ops);
    forall id | id in d.peers && HasAll(d.peers[id], required)
      ensures id in Found(d.peers, d.index, required) && Found(d.peers, d.index, required)[id] == d.peers[id]
    {
      LookupMissesNobody(d.peers, d.index, required, id);
    }
    if Keeping(ops) {
      LookupIsExact(d.peers, d.index, required);
    }
  }

  /** All lookups were exact after each of the first operations. */
  ghost predicate ExactThroughout(ops: seq<Op>) {
    forall n | 0 <= n <= |ops| :: LookupsExact(RunOps(ops[..n]).peers, RunOps(ops[..n]).index)
  }

  lemma KeepingPrefix(ops: seq<Op>, n: nat)
    requires Keeping(ops) && n <= |ops|
    ensures Keeping(ops[..n])
  {
    forall i | 0 <= i < n && ops[i].Register? ensures KeepsCapabilities(RunOps(ops[..n][..i]).peers, ops[i].peer) {
      assert ops[..n][..i] == ops[..i];
    }
  }

  lemma ExactRegistrationKeeps(ops: seq<Op>, i: nat)
    requires i < |ops| && ops[i].Register? && ExactThroughout(ops)
    ensures KeepsCapabilities(RunOps(ops[..i]).peers, ops[i].peer)
  {
    var d := RunOps(ops[..i]);
    RunsKeepIndex(ops[..i]);
    assert ops[..i + 1][..i] == ops[..i];
    assert RunOps(ops[..i + 1]) == Apply(d, ops[i]);
    RegistrationKeepsLookups(d.peers, d.index, ops[i].peer);
  }

  /** Over a whole run, lookups are exact at every moment if and only if no registration dropped a capability of a live peer. */
  lemma ExactThroughoutIffKeeping(ops: seq<Op>)
    ensures ExactThroughout(ops) <==> Keeping(ops)
  {
    if Keeping(ops) {
      forall n | 0 <= n <= |ops| ensures LookupsExact(RunOps(ops[..n]).peers, RunOps(ops[..n]).index) {
        KeepingPrefix(ops, n);
        RunsKeepIndex(ops[..n]);
        LookupsExactIffIndexExact(RunOps(ops[..n]).peers, RunOps(ops[..n]).index);
      }
    }
    if ExactThroughout(ops) {
      forall i | 0 <= i < |ops| && ops[i].Register? ensures KeepsCapabilities(RunOps(ops[..i]).peers, ops[i].peer) {
        ExactRegistrationKeeps(ops, i);
      }
    }
  }

  /** The peers a clean-up keeps: those seen recently enough, and those it has yet to look at. */
  ghost function Remaining(peers: Peers, todo: set<string>, timeout: int, now: int): Peers
    reads peers.Values
  {
    map id | id in peers && (id in todo || now - peers[id].lastSeen <= timeout) :: peers[id]
  }

  // ----- The service -----

  class DiscoveryService {
    var peers: Peers
    var capabilities: Index

    ghost predicate Valid() reads this {
      Complete(peers, capabilities) && NoEmptyBucket(capabilities) && Keyed(capabilities)
    }

    constructor ()
      ensures Valid() && Exact(peers, capabilities) && peers == map[]
    {
      peers, capabilities := map[], map[];
    }

    method RegisterPeer(id: string, caps: seq<string>, now: int) returns (peer: PeerInfo)
      requires Valid()
      modifies this
      ensures Valid() && fresh(peer) && peer.id == id && peer.capabilities == caps && peer.lastSeen == now
      ensures peers == old(peers)[id := peer] && capabilities == AddAll(old(capabilities), caps, peer)
      ensures old(Exact(peers, capabilities)) ==> (Exact(peers, capabilities) <==> KeepsCapabilities(old(peers), peer))
    {
      peer := new PeerInfo(id, caps, now);
      RegisterEffect(peers, capabilities, peer);
      AddAllFacts(capabilities, caps, peer);
      peers := peers[id := peer];
      ghost var before := capabilities;
      var i := 0;
      while i < |caps|
        invariant 0 <= i <= |caps| && peers == old(peers)[id := peer] && peer.lastSeen == now
        invariant capabilities == AddAll(before, caps[..i], peer)
      {
        assert caps[..i + 1][..i] == caps[..i];
        var bucket := Bucket(capabilities, caps[i]);
        capabilities := capabilities[caps[i] := bucket[id := peer]];
        i := i + 1;
      }
      assert caps[..i] == caps;
    }

    /** The loop that takes a peer out of the index. */
    method Unlist(caps: seq<string>, id: string)
      modifies this`capabilities
      ensures capabilities == RemoveAll(old(capabilities), caps, id)
    {
      var i := 0;
      while i < |caps|
        invariant 0 <= i <= |caps|
        invariant capabilities == RemoveAll(old(capabilities), caps[..i], id)
      {
        assert caps[..i + 1][..i] == caps[..i];
        if caps[i] in capabilities {
          var bucket := capabilities[caps[i]] - {id};
          if bucket == map[] {
            capabilities := capabilities - {caps[i]};
          } else {
            capabilities := capabilities[caps[i] := bucket];
          }
        }
        i := i + 1;
      }
      assert caps[..i] == caps;
    }

    method UnregisterPeer(id: string)
      requires Valid()
      modifies this
      ensures Valid() && peers == old(peers) - {id}
      ensures capabilities == if id in old(peers) then RemoveAll(old(capabilities), old(peers)[id].capabilities, id) else old(capabilities)
      ensures old(Exact(peers, capabilities)) ==> Exact(peers, capabilities)
    {
      if id !in peers {
        assert peers == peers - {id};
        return;
      }
      UnregisterEffect(peers, capabilities, id);
      RemoveAllFacts(capabilities, peers[id].capabilities, id);
      Unlist(peers[id].capabilities, id);
      peers := peers - {id};
    }

    /** Removes the peers not seen for longer than the timeout, in whatever order the map yields them. */
    method Cleanup(timeout: int, now: int)
      requires Valid()
      modifies this
      ensures Valid()
      ensures peers == old(Remaining(peers, {}, timeout, now))
      ensures forall id :: id in peers <==> id in old(peers) && now - old(peers[id].lastSeen) <= timeout
      ensures forall id | id in peers :: peers[id] == old(peers)[id]
      ensures old(Exact(peers, capabilities)) ==> Exact(peers, capabilities)
    {
      ghost var before, wasExact := peers, Exact(peers, capabilities);
      var todo := peers.Keys;
      while todo != {}
        invariant Valid() && todo <= peers.Keys
        invariant peers == Remaining(before, todo, timeout, now)
        invariant wasExact ==> Exact(peers, capabilities)
      {
        var id :| id in todo;
        todo := todo - {id};
        if now - peers[id].lastSeen > timeout {
          UnregisterPeer(id);
        }
      }
    }

    /** Intersects the buckets of the required capabilities. */
    method Candidates(required: seq<string>) returns (candidates: Peers)
      ensures candidates == Found(peers, capabilities, required)
    {
      if required == [] {
        return peers;
      }
      candidates := map[];
      if required[0] in capabilities {
        candidates := capabilities[required[0]];
      }
      var i := 1;
      while i < |required|
        invariant 1 <= i <= |required|
        invariant candidates == Found(peers, capabilities, required[..i])
      {
        assert required[..i + 1][0] == required[0];
        MoreRequired(peers, capabilities, required, i);
        if required[i] !in capabilities {
          NobodyListed(peers, capabilities, required, i);
          return map[];
        }
        candidates := map id | id in candidates && id in capabilities[required[i]] :: candidates[id];
        i := i + 1;
      }
      assert required[..i] == required;
    }

    method GetPeersWithCapabilities(required: seq<string>) returns (result: seq<PeerInfo>)
      requires Valid()
      ensures forall p :: p in result <==> p in Found(peers, capabilities, required).Values
      ensures |result| == |Found(peers, capabilities, required)|
      ensures forall i, j | 0 <= i < j < |result| :: result[i] != result[j]
      ensures forall id | id in peers && (forall c | c in required :: c in peers[id].capabilities) :: peers[id] in result
      ensures Exact(peers, capabilities) ==> forall p | p in result :: p.id in peers && peers[p.id] == p && forall c | c in required :: c in p.capabilities
    {
      var candidates := Candidates(required);
      assert forall id | id in candidates :: candidates[id].id == id by {
        FoundUnderOwnId(peers, capabilities, required);
      }
      result := [];
      var todo := candidates.Keys;
      while todo != {}
        invariant todo <= candidates.Keys && |result| + |todo| == |candidates|
        invariant forall p :: p in result <==> exists id | id in candidates && id !in todo :: candidates[id] == p
        invariant forall i | 0 <= i < |result| :: result[i].id in candidates && result[i].id !in todo
        invariant forall i, j | 0 <= i < j < |result| :: result[i] != result[j]
      {
        var id :| id in todo;
        result := result + [candidates[id]];
        todo := todo - {id};
      }
      forall id | id in peers && HasAll(peers[id], required) ensures peers[id] in result {
        LookupMissesNobody(peers, capabilities, required, id);
      }
      if Exact(peers, capabilities) {
        LookupIsExact(peers, capabilities, required);
      }
    }
  }

  lemma FoundUnderOwnId(peers: Peers, index: Index, required: seq<string>)
    requires Complete(peers, index) && Keyed(index)
    ensures forall id | id in Found(peers, index, required) :: Found(peers, index, required)[id].id == id
  {
    forall id | id in Found(peers, index, required) ensures Found(peers, index, required)[id].id == id {
      if required != [] {
        assert At(index, required[0], id) == Found(peers, index, required)[id];
      }
    }
  }

  lemma MoreRequired(peers: Peers, index: Index, required: seq<string>, i: nat)
    requires 1 <= i < |required|
    ensures Found(peers, index, required[..i + 1]) ==
      map id | id in Found(peers, index, required[..i]) && At(index, required[i], id) != null :: Found(peers, index, required[..i])[id]
  {
    assert required[..i + 1] == required[..i] + [required[i]];
    forall id ensures ListedUnderAll(index, required[..i + 1], id) <==> ListedUnderAll(index, required[..i], id) && At(index, required[i], id) != null {
    }
  }

  lemma NobodyListed(peers: Peers, index: Index, required: seq<string>, i: nat)
    requires i < |required| && required[i] !in index
    ensures Found(peers, index, required) == map[]
  {
    assert required[i] in required;
  }
}
