/** The peers a server keeps for each info hash (rust/mainline/src/rpc/server/peers.rs): what announcing does, and
    what a reader is told. */
module PeerStores {
  import opened Bytes
  import opened Ids
  import opened Nodes
  import opened Messages
  import opened Lrus
  import opened Servers

  /** Both levels are bounded, and no key is kept twice. */
  ghost predicate PeersOk(st: Store)
  {
    && LruOk(st.peers, st.caps.infoHashes) && 0 < st.caps.peers
    && forall i :: 0 <= i < |st.peers| ==> LruOk(st.peers[i].1, st.caps.peers)
  }

  function PeersAt(st: Store, h: Id): Items<Id, SocketAddr>
  {
    match Find(st.peers, h) case None => [] case Some(ps) => ps
  }

  /** The address a node is known under for a hash. */
  function PeerOf(st: Store, h: Id, id: Id): Option<SocketAddr> { Find(PeersAt(st, h), id) }

  // === What an announcement changes ===

  predicate IsAnnounce(c: Call) { c.request.requestType.PutRequest? && c.request.requestType.put.AnnouncePeer? }

  function HashOf(c: Call): Id
    requires IsAnnounce(c)
  {
    c.request.requestType.put.infoHash
  }

  /** The sender's own address, or its host with the port it names. */
  function PeerAddress(c: Call): SocketAddr
    requires IsAnnounce(c)
  {
    var a := c.request.requestType.put;
    if a.impliedPort == Some(true) then c.from else SocketAddr(c.from.ip, a.port)
  }

  predicate Announces(st: Store, env: Env, c: Call)
  {
    && IsAnnounce(c) && (env.allow)(c.request, c.from)
    && Validates(env, Rotated(st.tokens, c.now, c.secret), c.from, c.request.requestType.token)
  }

  /** The announcement makes the store forget a node of a hash: with the whole hash, or alone. */
  predicate Forgets(st: Store, env: Env, c: Call, h: Id, id: Id)
  {
    Announces(st, env, c) &&
    (Evicts(st.peers, st.caps.infoHashes, HashOf(c), h)
     || (h == HashOf(c) && Evicts(PeersAt(st, h), st.caps.peers, c.request.requesterId, id)))
  }

  lemma {:induction false} StepPeersIs(st: Store, env: Env, c: Call)
    ensures Step(st, env, c).caps == st.caps
    ensures Announces(st, env, c) ==>
      Step(st, env, c).peers == Announced(st, HashOf(c), c.request.requesterId, PeerAddress(c)).peers
    ensures !Announces(st, env, c) ==>
      (Step(st, env, c).peers == st.peers
       || (c.request.requestType.GetPeersRequest?
           && Step(st, env, c).peers == Touched(st.peers, c.request.requestType.infoHash)))
  {
  }

  lemma {:induction false} InnerOk(st: Store, h: Id)
    requires PeersOk(st)
    ensures LruOk(PeersAt(st, h), st.caps.peers)
  {
    var i := IndexOf(st.peers, h);
  }

  /** Entries of the new list are the new entry and old ones. */
  lemma {:induction false} StoredEntries<K, V>(items: Items<K, V>, cap: nat, k: K, v: V)
    ensures forall i :: 0 <= i < |Stored(items, cap, k, v)| ==>
      Stored(items, cap, k, v)[i] == (k, v) || Stored(items, cap, k, v)[i] in items
  {
  }

  lemma {:induction false} TouchedEntries<K, V>(items: Items<K, V>, k: K)
    ensures forall i :: 0 <= i < |Touched(items, k)| ==> Touched(items, k)[i] in items
  {
  }

  lemma {:induction false} AnnouncedFinds(st: Store, h: Id, id: Id, a: SocketAddr, h': Id, id': Id)
    requires PeersOk(st)
    ensures var st' := Announced(st, h, id, a);
      && PeersOk(st')
      && PeerOf(st', h', id') ==
        if h' == h then
          if id' == id then Some(a)
          else if Evicts(PeersAt(st, h), st.caps.peers, id, id') then None
          else PeerOf(st, h, id')
        else if Evicts(st.peers, st.caps.infoHashes, h, h') then None
        else PeerOf(st, h', id')
  {
    var ps := Stored(PeersAt(st, h), st.caps.peers, id, a);
    InnerOk(st, h);
    StoredFinds(PeersAt(st, h), st.caps.peers, id, a, id');
    StoredFinds(st.peers, st.caps.infoHashes, h, ps, h');
    StoredEntries(st.peers, st.caps.infoHashes, h, ps);
  }

  /** What any call does to the address of any node under any hash: an announcement with a valid token sets exactly
      its own, and the only other loss is what the two bounds push out. */
  lemma {:induction false} StepPeers(st: Store, env: Env, c: Call, h: Id, id: Id)
    requires PeersOk(st)
    ensures PeersOk(Step(st, env, c))
    ensures PeerOf(Step(st, env, c), h, id) ==
      if Announces(st, env, c) && h == HashOf(c) && id == c.request.requesterId then Some(PeerAddress(c))
      else if Forgets(st, env, c, h, id) then None
      else PeerOf(st, h, id)
  {
    StepPeersIs(st, env, c);
    if Announces(st, env, c) {
      AnnouncedFinds(st, HashOf(c), c.request.requesterId, PeerAddress(c), h, id);
      NotBothEvicted(st, HashOf(c));
    } else if Step(st, env, c).peers != st.peers {
      TouchedFinds(st.peers, st.caps.infoHashes, c.request.requestType.infoHash, h);
      TouchedEntries(st.peers, c.request.requestType.infoHash);
    }
  }

  /** A hash does not push itself out. */
  lemma {:induction false} NotBothEvicted(st: Store, h: Id)
    ensures !Evicts(st.peers, st.caps.infoHashes, h, h)
  {
    FindIff(st.peers, h);
  }

  // === What a reader is told ===

  ghost predicate Within<T>(part: seq<T>, whole: seq<T>) { multiset(part) <= multiset(whole) }

  /** The walk takes at most ten peers, none more often than it is stored. */
  lemma {:induction false} SampledIsPart(takes: (nat, nat, nat) -> bool, all: seq<SocketAddr>, i: nat,
      got: seq<SocketAddr>)
    requires i <= |all| && |got| <= SAMPLE_SIZE && Within(got, all[..i])
    ensures |Sampled(takes, all, i, got)| <= SAMPLE_SIZE && Within(Sampled(takes, all, i, got), all)
    decreases |all| - i
  {
    if i == |all| || |got| == SAMPLE_SIZE {
      assert all == all[..i] + all[i..];
    } else {
      assert all[..i + 1] == all[..i] + [all[i]];
      SampledIsPart(takes, all, i + 1, if takes(i, SAMPLE_SIZE - |got|, |all| - i) then got + [all[i]] else got);
    }
  }

  /** No peers for an unknown hash, all of fewer than ten, and otherwise at most ten of them. */
  lemma {:induction false} ReportedPeers(st: Store, env: Env, h: Id)
    ensures var r, all := PeersOfHash(st, env, h), Values(PeersAt(st, h));
      && (r.None? <==> all == [])
      && (r.Some? && |all| < SAMPLE_SIZE ==> r.value == all)
      && (r.Some? ==> |r.value| <= SAMPLE_SIZE && Within(r.value, all))
  {
    SampledIsPart(env.takes, Values(PeersAt(st, h)), 0, []);
  }

  // === Whole runs ===

  lemma {:induction false} RunPeersOk(st: Store, env: Env, cs: seq<Call>, i: nat)
    requires PeersOk(st) && i <= |cs|
    ensures PeersOk(Before(st, env, cs, i))
  {
    if i > 0 {
      RunPeersOk(st, env, cs, i - 1);
      BeforeStep(st, env, cs, i - 1);
      StepPeers(Before(st, env, cs, i - 1), env, cs[i - 1], cs[i - 1].dir.own, cs[i - 1].dir.own);
    }
  }

  ghost predicate AnnouncedAt(st: Store, env: Env, cs: seq<Call>, h: Id, id: Id, i: nat)
    requires i < |cs|
  {
    Announces(Before(st, env, cs, i), env, cs[i]) && HashOf(cs[i]) == h && cs[i].request.requesterId == id
  }

  ghost function AddressAt(st: Store, env: Env, cs: seq<Call>, h: Id, id: Id, i: nat): Option<SocketAddr>
    requires i < |cs|
  {
    if AnnouncedAt(st, env, cs, h, id, i) then Some(PeerAddress(cs[i])) else None
  }

  /** In every run the address kept for a node is the one it announced last. */
  lemma {:induction false} KeptIsLastAnnounced(st: Store, env: Env, cs: seq<Call>, h: Id, id: Id) returns (i: nat)
    requires PeersOk(st) && PeerOf(st, h, id).None? && PeerOf(Run(st, env, cs), h, id).Some?
    ensures i < |cs| && AnnouncedAt(st, env, cs, h, id, i)
    ensures PeerOf(Run(st, env, cs), h, id) == Some(PeerAddress(cs[i]))
    ensures forall j :: i < j < |cs| ==> !AnnouncedAt(st, env, cs, h, id, j)
  {
    var writes := seq(|cs|, j requires 0 <= j < |cs| => AddressAt(st, env, cs, h, id, j));
    var cell := seq(|cs| + 1, j requires 0 <= j <= |cs| => PeerOf(Before(st, env, cs, j), h, id));
    assert cs[..|cs|] == cs;
    forall j | 0 <= j < |cs| ensures CellStep(writes, cell, j) {
      RunPeersOk(st, env, cs, j);
      BeforeStep(st, env, cs, j);
      StepPeers(Before(st, env, cs, j), env, cs[j], h, id);
    }
    i := LastWrite(writes, cell);
    assert writes[i].Some?;
    forall j | i < j < |cs| ensures !AnnouncedAt(st, env, cs, h, id, j) {
      assert writes[j].None?;
    }
  }

  /** Every peer a server ever reports announced itself for that hash, from that host, with a valid token. */
  lemma {:induction false} ReportedWereAnnounced(st: Store, env: Env, cs: seq<Call>, h: Id, a: SocketAddr)
      returns (i: nat)
    requires PeersOk(st) && st.peers == []
    requires var r := PeersOfHash(Run(st, env, cs), env, h); r.Some? && a in r.value
    ensures i < |cs| && Announces(Before(st, env, cs, i), env, cs[i])
    ensures HashOf(cs[i]) == h && PeerAddress(cs[i]) == a && cs[i].from.ip == a.ip
  {
    var v := Run(st, env, cs);
    ReportedPeers(v, env, h);
    assert a in multiset(PeersOfHash(v, env, h).value);
    assert a in multiset(Values(PeersAt(v, h)));
    var k :| 0 <= k < |PeersAt(v, h)| && PeersAt(v, h)[k].1 == a;
    RunPeersOk(st, env, cs, |cs|);
    assert cs[..|cs|] == cs;
    InnerOk(v, h);
    FindIs(PeersAt(v, h), k);
    i := KeptIsLastAnnounced(st, env, cs, h, PeersAt(v, h)[k].0);
  }
}
