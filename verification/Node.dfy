/** Routing table entries (rust/mainline/src/common/node.rs) and the per-address quota of BEP 42. */
module Nodes {
  import opened Bytes
  import opened Ids
  import opened SortedLists

  const STALE_TIME := 15 * 60 * 1000
  const TOKEN_ROTATE_INTERVAL := 5 * 60 * 1000
  const MAX_BUCKET_SIZE_K := 20

  datatype SocketAddr = SocketAddr(ip: Ipv4, port: u16)

  /** Times are milliseconds on one clock. */
  datatype Node = Node(id: Id, address: SocketAddr, token: Option<seq<byte>>, lastSeen: nat)

  /** `Instant::elapsed` never goes below zero. */
  function Elapsed(since: nat, now: nat): nat { if now < since then 0 else now - since }

  predicate IsStale(n: Node, now: nat) { Elapsed(n.lastSeen, now) > STALE_TIME }

  predicate ValidToken(n: Node, now: nat) { Elapsed(n.lastSeen, now) <= TOKEN_ROTATE_INTERVAL }

  predicate SameIp(a: Node, b: Node) { a.address.ip == b.address.ip }

  predicate IsSecure(n: Node) { IsValidForIp(n.id, n.address.ip) }

  /** An entry keeps another node of its address out unless it is secure and their first 21 bits differ. */
  predicate Excludes(existing: Node, n: Node)
  {
    SameIp(n, existing) && (!IsSecure(existing) || First21Bits(n.id) == First21Bits(existing.id))
  }

  predicate AlreadyExists(n: Node, nodes: seq<Node>)
  {
    exists i :: 0 <= i < |nodes| && Excludes(nodes[i], n)
  }

  // === The quota ===

  /** Two entries may stand in one list: different addresses, or different prefixes and not both insecure. */
  predicate Compatible(a: Node, b: Node)
  {
    SameIp(a, b) ==> First21Bits(a.id) != First21Bits(b.id) && (IsSecure(a) || IsSecure(b))
  }

  lemma NotExcludedIsCompatible(existing: Node, n: Node)
    requires !Excludes(existing, n)
    ensures Compatible(existing, n)
  {
  }

  function CountAt(nodes: seq<Node>, ip: Ipv4, secure: bool): (c: nat)
    ensures c <= |nodes|
  {
    if nodes == [] then 0
    else (if nodes[0].address.ip == ip && IsSecure(nodes[0]) == secure then 1 else 0) + CountAt(nodes[1..], ip, secure)
  }

  /** The three low bits of the last byte of every secure id at an address. */
  ghost function Residues(nodes: seq<Node>, ip: Ipv4): set<int>
  {
    set i | 0 <= i < |nodes| && nodes[i].address.ip == ip && IsSecure(nodes[i]) :: nodes[i].id[19] % 8
  }

  lemma {:induction false} SecureCountIsResidueCount(nodes: seq<Node>, ip: Ipv4)
    requires Pairwise(Compatible, nodes) && !IsLocal(ip)
    ensures CountAt(nodes, ip, true) == |Residues(nodes, ip)|
  {
    if nodes == [] {
      assert Residues(nodes, ip) == {};
    } else {
      var n, rest := nodes[0], nodes[1..];
      SecureCountIsResidueCount(rest, ip);
      if n.address.ip == ip && IsSecure(n) {
        var r := n.id[19] % 8;
        forall i | 0 <= i < |rest| && rest[i].address.ip == ip && IsSecure(rest[i])
          ensures rest[i].id[19] % 8 != r
        {
          HeadIsCompatible(nodes, i);
          if rest[i].id[19] % 8 == r {
            ValidIdsAgree(n.id, rest[i].id, ip);
          }
        }
        ResiduesStep(nodes, ip);
        assert Residues(nodes, ip) == Residues(rest, ip) + {r};
      } else {
        ResiduesStep(nodes, ip);
      }
    }
  }

  lemma HeadIsCompatible(nodes: seq<Node>, i: nat)
    requires Pairwise(Compatible, nodes) && i + 1 < |nodes|
    ensures Compatible(nodes[0], nodes[1..][i])
  {
    assert Compatible(nodes[0], nodes[i + 1]);
  }

  lemma ResiduesStep(nodes: seq<Node>, ip: Ipv4)
    requires nodes != []
    ensures var n := nodes[0];
            Residues(nodes, ip) == Residues(nodes[1..], ip) + (if n.address.ip == ip && IsSecure(n)
                then {n.id[19] % 8} else {})
  {
    var n, rest := nodes[0], nodes[1..];
    forall r | r in Residues(nodes, ip)
      ensures r in Residues(rest, ip) + (if n.address.ip == ip && IsSecure(n) then {n.id[19] % 8} else {})
    {
      var i :| 0 <= i < |nodes| && nodes[i].address.ip == ip && IsSecure(nodes[i]) && nodes[i].id[19] % 8 == r;
      if i > 0 {
        assert rest[i - 1] == nodes[i];
      }
    }
    forall r | r in Residues(rest, ip) ensures r in Residues(nodes, ip) {
      var i :| 0 <= i < |rest| && rest[i].address.ip == ip && IsSecure(rest[i]) && rest[i].id[19] % 8 == r;
      assert nodes[i + 1] == rest[i];
    }
  }

  lemma {:induction false} InsecureAtMostOne(nodes: seq<Node>, ip: Ipv4)
    requires Pairwise(Compatible, nodes)
    ensures CountAt(nodes, ip, false) <= 1
  {
    if nodes != [] {
      var n, rest := nodes[0], nodes[1..];
      InsecureAtMostOne(rest, ip);
      if n.address.ip == ip && !IsSecure(n) && CountAt(rest, ip, false) > 0 {
        var i := FirstAt(rest, ip, false);
        HeadIsCompatible(nodes, i);
      }
    }
  }

  lemma FirstAt(nodes: seq<Node>, ip: Ipv4, secure: bool) returns (i: nat)
    requires CountAt(nodes, ip, secure) > 0
    ensures i < |nodes| && nodes[i].address.ip == ip && IsSecure(nodes[i]) == secure
  {
    if nodes[0].address.ip == ip && IsSecure(nodes[0]) == secure {
      i := 0;
    } else {
      var k := FirstAt(nodes[1..], ip, secure);
      i := k + 1;
    }
  }

  lemma SubsetOfEight(s: set<int>)
    requires forall r :: r in s ==> 0 <= r < 8
    ensures |s| <= 8
  {
    var all := {0, 1, 2, 3, 4, 5, 6, 7};
    forall r | r in s ensures r in all {
      assert 0 <= r < 8;
    }
    SubsetSize(s, all);
  }

  lemma SubsetSize<T>(a: set<T>, b: set<T>)
    requires a <= b
    ensures |a| <= |b|
  {
    if a != {} {
      var x :| x in a;
      SubsetSize(a - {x}, b - {x});
    }
  }

  /** A public address holds at most eight secure nodes and one insecure node. */
  lemma QuotaPerAddress(nodes: seq<Node>, ip: Ipv4)
    requires Pairwise(Compatible, nodes)
    ensures !IsLocal(ip) ==> CountAt(nodes, ip, true) <= 8
    ensures CountAt(nodes, ip, false) <= 1
  {
    InsecureAtMostOne(nodes, ip);
    if !IsLocal(ip) {
      SecureCountIsResidueCount(nodes, ip);
      SubsetOfEight(Residues(nodes, ip));
    }
  }
}
