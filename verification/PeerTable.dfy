/**
 PeerTable and the announce handler of src/core/builtin_http_tracker.cc. The buckets of peers are
 compared with the map they stand for: (info hash, peer id) to peer.
*/
module PeerTables {
  import opened Sequences
  import opened Bits
  import opened QueryString
  import Bencode

  const PEER_TTL_MS: int := 45 * 60 * 1000
  const MAX_PEERS_RETURN: int := 50
  const DEFAULT_NUMWANT: int := 50
  const ANNOUNCE_INTERVAL_SEC: int := 1800
  const MIN_ANNOUNCE_INTERVAL_SEC: int := 900

  type Host = n: nat | n < 0x1_0000_0000
  type Port = n: nat | n < 0x1_0000

  datatype Peer = Peer(id: Bytes, host: Host, port: Port, left: int, lastSeen: int)

  type Table = map<Bytes, seq<Peer>>

  // ---------------------------------------------------------------- buckets

  ghost predicate DistinctIds(b: seq<Peer>) {
    forall i, j :: 0 <= i < j < |b| ==> b[i].id != b[j].id
  }

  function IndexOfPeer(b: seq<Peer>, id: Bytes): (r: Option<nat>)
    ensures r.Some? ==> r.value < |b| && b[r.value].id == id
    ensures r.None? ==> forall i :: 0 <= i < |b| ==> b[i].id != id
    decreases |b|
  {
    if b == [] then None
    else
      var r := IndexOfPeer(b[..|b| - 1], id);
      if r.Some? then r else if b[|b| - 1].id == id then Some(|b| - 1) else None
  }

  function PeerIn(b: seq<Peer>, id: Bytes): Option<Peer> {
    var i := IndexOfPeer(b, id);
    if i.None? then None else Some(b[i.value])
  }

  lemma PeerInExactly(b: seq<Peer>, id: Bytes, i: nat)
    requires DistinctIds(b) && i < |b| && b[i].id == id
    ensures IndexOfPeer(b, id) == Some(i) && PeerIn(b, id) == Some(b[i])
  {
  }

  lemma PeerInMember(b: seq<Peer>, id: Bytes, p: Peer)
    requires DistinctIds(b)
    ensures PeerIn(b, id) == Some(p) <==> p in b && p.id == id
  {
    if p in b && p.id == id {
      var i :| 0 <= i < |b| && b[i] == p;
      PeerInExactly(b, id, i);
    }
  }

  function Replaced(b: seq<Peer>, p: Peer): seq<Peer> {
    var i := IndexOfPeer(b, p.id);
    if i.Some? then b[i.value := p] else b + [p]
  }

  lemma ReplacedFinds(b: seq<Peer>, p: Peer, id: Bytes)
    requires DistinctIds(b)
    ensures DistinctIds(Replaced(b, p)) && PeerIn(Replaced(b, p), id) == if id == p.id then Some(p) else PeerIn(b, id)
  {
    var r := Replaced(b, p);
    var i := IndexOfPeer(b, p.id);
    assert DistinctIds(r);
    if id == p.id {
      PeerInExactly(r, id, if i.Some? then i.value else |b|);
    } else if PeerIn(b, id).Some? {
      PeerInExactly(r, id, IndexOfPeer(b, id).value);
    }
  }

  lemma FilterDistinct(b: seq<Peer>, keep: Peer -> bool)
    requires DistinctIds(b)
    ensures DistinctIds(Filter(b, keep))
  {
    var idx := Where(b, keep);
    forall i, j | 0 <= i < j < |idx| ensures Filter(b, keep)[i].id != Filter(b, keep)[j].id {
      assert idx[i] < idx[j];
    }
  }

  lemma FilterFinds(b: seq<Peer>, keep: Peer -> bool, id: Bytes)
    requires DistinctIds(b)
    ensures var p := PeerIn(b, id);
            PeerIn(Filter(b, keep), id) == if p.Some? && keep(p.value) then p else None
  {
    FilterDistinct(b, keep);
    var p, q := PeerIn(b, id), PeerIn(Filter(b, keep), id);
    if p.Some? {
      PeerInMember(b, id, p.value);
      PeerInMember(Filter(b, keep), id, p.value);
    }
    if q.Some? {
      PeerInMember(Filter(b, keep), id, q.value);
      PeerInMember(b, id, q.value);
    }
  }

  // ---------------------------------------------------------------- the table

  /** The record the table holds for a peer of a torrent. */
  function Record(t: Table, ih: Bytes, id: Bytes): Option<Peer> {
    if ih in t then PeerIn(t[ih], id) else None
  }

  ghost predicate WellFormed(t: Table) {
    forall ih <- t :: t[ih] != [] && DistinctIds(t[ih])
  }

  function Bucket(t: Table, ih: Bytes): seq<Peer> { if ih in t then t[ih] else [] }

  function Store(t: Table, ih: Bytes, b: seq<Peer>): Table { if b == [] then t - {ih} else t[ih := b] }

  /** Putting a bucket back, or dropping it when it has become empty. */
  lemma StoreRecords(t: Table, ih: Bytes, b: seq<Peer>)
    requires WellFormed(t) && DistinctIds(b)
    ensures WellFormed(Store(t, ih, b))
    ensures forall h, id :: Record(Store(t, ih, b), h, id) == if h == ih then PeerIn(b, id) else Record(t, h, id)
  {
  }

  predicate Fresh(p: Peer, now: int) { now - p.lastSeen <= PEER_TTL_MS }

  /** A record after a prune. */
  function Aged(p: Option<Peer>, now: int): Option<Peer> { if p.Some? && !Fresh(p.value, now) then None else p }

  class PeerTable {
    var byInfoHash: Table

    constructor ()
      ensures WellFormed(byInfoHash) && forall h, id :: Record(byInfoHash, h, id).None?
    {
      byInfoHash := map[];
    }

    method Upsert(ih: Bytes, p: Peer)
      requires WellFormed(byInfoHash)
      modifies this
      ensures WellFormed(byInfoHash)
      ensures forall h, id :: Record(byInfoHash, h, id) ==
                if h == ih && id == p.id then Some(p) else Record(old(byInfoHash), h, id)
    {
      var b := Bucket(byInfoHash, ih);
      ghost var was := byInfoHash;
      forall id ensures PeerIn(Replaced(b, p), id) == if id == p.id then Some(p) else PeerIn(b, id) {
        ReplacedFinds(b, p, id);
      }
      ReplacedFinds(b, p, p.id);
      StoreRecords(was, ih, Replaced(b, p));
      for i := 0 to |b|
        invariant byInfoHash == was
        invariant forall j :: 0 <= j < i ==> b[j].id != p.id
      {
        if b[i].id == p.id {
          PeerInExactly(b, p.id, i);
          byInfoHash := byInfoHash[ih := b[i := p]];
          return;
        }
      }
      byInfoHash := byInfoHash[ih := b + [p]];
    }

    method Remove(ih: Bytes, id: Bytes)
      requires WellFormed(byInfoHash)
      modifies this
      ensures WellFormed(byInfoHash)
      ensures forall h, i :: Record(byInfoHash, h, i) ==
                if h == ih && i == id then None else Record(old(byInfoHash), h, i)
    {
      if ih !in byInfoHash {
        return;
      }
      var keep := (p: Peer) => p.id != id;
      var b := byInfoHash[ih];
      forall i ensures PeerIn(Filter(b, keep), i) == if i == id then None else PeerIn(b, i) { FilterFinds(b, keep, i); }
      FilterDistinct(b, keep);
      StoreRecords(byInfoHash, ih, Filter(b, keep));
      byInfoHash := Store(byInfoHash, ih, Filter(b, keep));
    }

    /** One bucket of a prune. */
    method PruneBucket(ih: Bytes, now: int)
      requires WellFormed(byInfoHash) && ih in byInfoHash
      modifies this
      ensures WellFormed(byInfoHash)
      ensures forall h, i :: Record(byInfoHash, h, i) ==
                if h == ih then Aged(Record(old(byInfoHash), h, i), now) else Record(old(byInfoHash), h, i)
      ensures byInfoHash.Keys <= old(byInfoHash).Keys && byInfoHash.Keys >= old(byInfoHash).Keys - {ih}
    {
      var keep := (p: Peer) => !(now - p.lastSeen > PEER_TTL_MS);
      var b := byInfoHash[ih];
      forall i ensures PeerIn(Filter(b, keep), i) == Aged(PeerIn(b, i), now) {
        FilterFinds(b, keep, i);
      }
      FilterDistinct(b, keep);
      StoreRecords(byInfoHash, ih, Filter(b, keep));
      byInfoHash := Store(byInfoHash, ih, Filter(b, keep));
    }

    /** Forgets exactly the peers not seen for longer than the time to live. */
    method Prune(now: int)
      requires WellFormed(byInfoHash)
      modifies this
      ensures WellFormed(byInfoHash)
      ensures forall h, i :: Record(byInfoHash, h, i) == Aged(Record(old(byInfoHash), h, i), now)
    {
      var left := byInfoHash.Keys;
      ghost var was := byInfoHash;
      while left != {}
        invariant WellFormed(byInfoHash) && left <= byInfoHash.Keys <= was.Keys
        invariant forall h, i :: Record(byInfoHash, h, i) ==
                    if h in left then Record(was, h, i) else Aged(Record(was, h, i), now)
        decreases left
      {
        var ih :| ih in left;
        PruneBucket(ih, now);
        left := left - {ih};
      }
    }

    method CountComplete(ih: Bytes) returns (n: nat)
      ensures n == Count(Bucket(byInfoHash, ih), (p: Peer) => p.left == 0)
    {
      n := CountPeers(Bucket(byInfoHash, ih), (p: Peer) => p.left == 0);
    }

    method CountIncomplete(ih: Bytes) returns (n: nat)
      ensures n == Count(Bucket(byInfoHash, ih), (p: Peer) => p.left > 0)
    {
      n := CountPeers(Bucket(byInfoHash, ih), (p: Peer) => p.left > 0);
    }

    /** std::shuffle permutes the candidates by `perm`. The reply lists so many of the other peers
        as wanted, at most 50, each once. */
    method BuildCompactPeers(ih: Bytes, exclude: Bytes, numwant: int, perm: nat -> seq<nat>)
      returns (out: Bytes, ghost chosen: seq<Peer>)
      requires WellFormed(byInfoHash) && IsShuffle(perm)
      ensures |out| == 6 * Max(0, Min(numwant, Min(MAX_PEERS_RETURN, Count(Bucket(byInfoHash, ih), Others(exclude)))))
      ensures |out| == 6 * |chosen| && DecodeCompact(out) == Endpoints(chosen)
      ensures |chosen| == Max(0, Min(numwant, Min(MAX_PEERS_RETURN, Count(Bucket(byInfoHash, ih), Others(exclude)))))
      ensures DistinctIds(chosen) && forall p <- chosen :: p in Bucket(byInfoHash, ih) && p.id != exclude
    {
      var b := Bucket(byInfoHash, ih);
      OthersCounted(b, exclude);
      var cand := Filter(b, Others(exclude));
      FilterDistinct(b, Others(exclude));
      if cand == [] {
        return [], [];
      }
      ShuffleKeeps(cand, perm);
      cand := Shuffled(cand, perm);
      var take := Min(numwant, Min(MAX_PEERS_RETURN, |cand|));
      out := WriteCompact(cand, take);
      chosen := cand[..Max(0, take)];
    }
  }

  method WriteCompact(cand: seq<Peer>, take: int) returns (out: Bytes)
    requires take <= |cand|
    ensures var chosen := cand[..Max(0, take)];
            |out| == 6 * |chosen| && DecodeCompact(out) == Endpoints(chosen)
  {
    out := [];
    for i := 0 to Max(0, take)
      invariant out == Cat(Chunks(cand[..i]))
    {
      ChunksAppend(cand[..i], cand[i]);
      assert cand[..i + 1] == cand[..i] + [cand[i]];
      var ip, port := BigEndian4(cand[i].host), BigEndian2(cand[i].port);
      assert out + ip + port == out + (ip + port);
      out := out + ip;
      out := out + port;
    }
    CompactRoundTrip(cand[..Max(0, take)]);
  }

  method CountPeers(b: seq<Peer>, sel: Peer -> bool) returns (n: nat)
    ensures n == Count(b, sel)
  {
    n := 0;
    for i := 0 to |b|
      invariant n == Count(b[..i], sel)
    {
      assert b[..i + 1][..i] == b[..i];
      if sel(b[i]) {
        n := n + 1;
      }
    }
    assert b[..|b|] == b;
  }

  /** Complete and incomplete together count each peer that reported something left or nothing
      left; a negative amount counts in neither. */
  lemma {:induction false} CountsAddUp(b: seq<Peer>)
    ensures Count(b, (p: Peer) => p.left == 0) + Count(b, (p: Peer) => p.left > 0) == Count(b, (p: Peer) => p.left >= 0)
    decreases |b|
  {
    if b != [] { CountsAddUp(b[..|b| - 1]); }
  }

  // ---------------------------------------------------------------- the compact reply

  function Others(exclude: Bytes): Peer -> bool { (p: Peer) => p.id != exclude }

  lemma OthersCounted(b: seq<Peer>, exclude: Bytes)
    ensures |Filter(b, Others(exclude))| == Count(b, Others(exclude))
  {
    CountIsWhere(b, Others(exclude));
  }

  ghost predicate IsShuffle(perm: nat -> seq<nat>) {
    forall n: nat :: |perm(n)| == n && InRange(perm(n), n) && Distinct(perm(n))
  }

  function Shuffled(s: seq<Peer>, perm: nat -> seq<nat>): seq<Peer>
    requires InRange(perm(|s|), |s|)
  {
    Pick(s, perm(|s|))
  }

  lemma ShuffleKeeps(s: seq<Peer>, perm: nat -> seq<nat>)
    requires IsShuffle(perm) && DistinctIds(s)
    ensures |Shuffled(s, perm)| == |s| && DistinctIds(Shuffled(s, perm))
    ensures forall p <- Shuffled(s, perm) :: p in s
  {
    var idx := perm(|s|);
    var r := Pick(s, idx);
    forall i, j | 0 <= i < j < |r| ensures r[i].id != r[j].id {
      assert idx[i] != idx[j];
      if idx[i] < idx[j] { assert s[idx[i]].id != s[idx[j]].id; } else { assert s[idx[j]].id != s[idx[i]].id; }
    }
  }

  function BigEndian4(n: Host): Bytes { [n / 0x100_0000, n / 0x1_0000 % 0x100, n / 0x100 % 0x100, n % 0x100] }
  function BigEndian2(n: Port): Bytes { [n / 0x100, n % 0x100] }

  function PeerBytes(p: Peer): (b: Bytes)
    ensures |b| == 6
  {
    BigEndian4(p.host) + BigEndian2(p.port)
  }

  predicate Sixes(cs: seq<Bytes>) { forall i :: 0 <= i < |cs| ==> |cs[i]| == 6 }

  function Cat(cs: seq<Bytes>): Bytes
    decreases |cs|
  {
    if cs == [] then [] else Cat(cs[..|cs| - 1]) + cs[|cs| - 1]
  }

  function Chunks(ps: seq<Peer>): (cs: seq<Bytes>)
    ensures |cs| == |ps| && Sixes(cs)
  {
    seq(|ps|, i requires 0 <= i < |ps| => PeerBytes(ps[i]))
  }

  lemma ChunksAppend(ps: seq<Peer>, p: Peer)
    ensures Cat(Chunks(ps + [p])) == Cat(Chunks(ps)) + PeerBytes(p)
  {
    var cs := Chunks(ps + [p]);
    assert cs[..|cs| - 1] == Chunks(ps);
  }

  datatype Endpoint = Endpoint(host: nat, port: nat)

  function Endpoints(ps: seq<Peer>): (r: seq<Endpoint>)
    ensures |r| == |ps|
  {
    seq(|ps|, i requires 0 <= i < |ps| => Endpoint(ps[i].host, ps[i].port))
  }

  function Word(high: nat, low: nat): nat { high * 0x100 + low }

  /** Six bytes of BEP 23. */
  function ReadEndpoint(b: Bytes): Endpoint
    requires |b| == 6
  {
    Endpoint(Word(Word(Word(b[0], b[1]), b[2]), b[3]), Word(b[4], b[5]))
  }

  /** A compact peer list in network byte order. */
  function DecodeCompact(b: Bytes): seq<Endpoint>
    decreases |b|
  {
    if |b| < 6 then [] else DecodeCompact(b[..|b| - 6]) + [ReadEndpoint(b[|b| - 6..])]
  }

  lemma NetworkOrder(host: Host, port: Port)
    ensures ReadEndpoint(BigEndian4(host) + BigEndian2(port)) == Endpoint(host, port)
  {
    var b := BigEndian4(host) + BigEndian2(port);
    assert host / 0x1_0000 == host / 0x100 / 0x100 && host / 0x100_0000 == host / 0x100 / 0x100 / 0x100;
    assert Word(Word(Word(b[0], b[1]), b[2]), b[3]) == host;
  }

  lemma DecodeAppend(b: Bytes, last: Bytes)
    requires |last| == 6
    ensures DecodeCompact(b + last) == DecodeCompact(b) + [ReadEndpoint(last)]
  {
    var more := b + last;
    assert more[..|more| - 6] == b && more[|more| - 6..] == last;
  }

  lemma {:induction false} DecodeChunks(cs: seq<Bytes>)
    requires Sixes(cs)
    ensures |Cat(cs)| == 6 * |cs| && |DecodeCompact(Cat(cs))| == |cs|
    ensures forall i :: 0 <= i < |cs| ==> DecodeCompact(Cat(cs))[i] == ReadEndpoint(cs[i])
    decreases |cs|
  {
    if cs != [] {
      DecodeChunks(cs[..|cs| - 1]);
      DecodeAppend(Cat(cs[..|cs| - 1]), cs[|cs| - 1]);
    }
  }

  lemma CompactRoundTrip(ps: seq<Peer>)
    ensures |Cat(Chunks(ps))| == 6 * |ps| && DecodeCompact(Cat(Chunks(ps))) == Endpoints(ps)
  {
    DecodeChunks(Chunks(ps));
    forall i | 0 <= i < |ps| ensures ReadEndpoint(Chunks(ps)[i]) == Endpoints(ps)[i] {
      NetworkOrder(ps[i].host, ps[i].port);
    }
  }

  // ---------------------------------------------------------------- announce

  datatype Reason = InvalidInfoHash | InvalidPeerId | InvalidPort | CompactRequired | IPv6NotSupported

  /** An announce: the raw query, and what QUrlQuery and the socket give for the other parameters.
      `port` and `numwant` are None when the text is not a number. */
  datatype Announce = Announce(query: Bytes, port: Option<int>, compactRefused: bool, left: int, numwant: Option<int>,
                               stopped: bool, address: Option<Host>, now: int)

  const INFO_HASH: Bytes := [0x69, 0x6E, 0x66, 0x6F, 0x5F, 0x68, 0x61, 0x73, 0x68]
  const PEER_ID: Bytes := [0x70, 0x65, 0x65, 0x72, 0x5F, 0x69, 0x64]

  function InfoHash(a: Announce): Bytes { FirstValue(Split(a.query), INFO_HASH + [EQUALS]) }
  function PeerId(a: Announce): Bytes { FirstValue(Split(a.query), PEER_ID + [EQUALS]) }

  /** The first complaint about an announce. */
  function Complaint(a: Announce): Option<Reason> {
    if |InfoHash(a)| != 20 then Some(InvalidInfoHash)
    else if |PeerId(a)| != 20 then Some(InvalidPeerId)
    else if a.port.None? || a.port.value <= 0 || a.port.value > 65535 then Some(InvalidPort)
    else if a.compactRefused then Some(CompactRequired)
    else if a.address.None? then Some(IPv6NotSupported)
    else None
  }

  /** How many peers the reply may list. */
  function Wanted(a: Announce): int {
    if a.numwant.None? || a.numwant.value <= 0 then DEFAULT_NUMWANT else Min(a.numwant.value, MAX_PEERS_RETURN)
  }

  /** What an accepted announce makes of the record of a peer. */
  function Announced(a: Announce, h: Bytes, id: Bytes, before: Option<Peer>): Option<Peer>
    requires Complaint(a).None?
  {
    if h != InfoHash(a) || id != PeerId(a) then before
    else if a.stopped then None
    else Some(Peer(id, a.address.value, a.port.value, a.left, a.now))
  }

  /** A table after the announce and the peers picked for the reply. */
  ghost predicate Answered(a: Announce, t: Table, peers: Bytes, chosen: seq<Peer>) {
    var b := Bucket(t, InfoHash(a));
    && DecodeCompact(peers) == Endpoints(chosen) && |peers| == 6 * |chosen| && DistinctIds(chosen)
    && |chosen| == Min(Wanted(a), Count(b, Others(PeerId(a))))
    && forall p <- chosen :: p in b && p.id != PeerId(a)
  }

  function ReplyFields(t: Table, ih: Bytes, peers: Bytes): seq<(Bytes, Bencode.Value)> {
    Bencode.OkEntries(ANNOUNCE_INTERVAL_SEC, MIN_ANNOUNCE_INTERVAL_SEC,
                      Count(Bucket(t, ih), (p: Peer) => p.left == 0),
                      Count(Bucket(t, ih), (p: Peer) => p.left > 0), peers)
  }

  // ---------------------------------------------------------------- what an announce means

  lemma ParameterNames()
    ensures INFO_HASH == Ascii("info_hash") && PEER_ID == Ascii("peer_id")
  {
  }

  /** The announce is refused for the first thing wrong with it, in this order: an info hash or a peer
      id that is not 20 bytes long, a port that is not one, a refused compact form, no IPv4 address. */
  lemma ComplaintOutcome(a: Announce)
    ensures var ih := FirstValue(Split(a.query), Ascii("info_hash="));
            var id := FirstValue(Split(a.query), Ascii("peer_id="));
            var hasPort := a.port.Some? && 1 <= a.port.value <= 65535;
            && (Complaint(a) == Some(InvalidInfoHash) <==> |ih| != 20)
            && (Complaint(a) == Some(InvalidPeerId) <==> |ih| == 20 && |id| != 20)
            && (Complaint(a) == Some(InvalidPort) <==> |ih| == |id| == 20 && !hasPort)
            && (Complaint(a) == Some(CompactRequired) <==> |ih| == |id| == 20 && hasPort && a.compactRefused)
            && (Complaint(a) == Some(IPv6NotSupported) <==>
                  |ih| == |id| == 20 && hasPort && !a.compactRefused && a.address.None?)
            && (Complaint(a).None? <==> |ih| == |id| == 20 && hasPort && !a.compactRefused && a.address.Some?)
  {
    ParameterNames();
    assert Ascii("info_hash=") == INFO_HASH + [EQUALS] && Ascii("peer_id=") == PEER_ID + [EQUALS];
  }

  /** An accepted announce records its own peer, as of now and with what it has left, or forgets it when
      it stops, and leaves every other record alone. */
  lemma AnnounceOutcome(a: Announce, h: Bytes, id: Bytes, before: Option<Peer>)
    requires Complaint(a).None?
    ensures var after := Announced(a, h, id, before);
            if h == InfoHash(a) && id == PeerId(a)
            then if a.stopped then after == None
                 else && after.Some? && after.value.id == id && after.value.host == a.address.value
                      && after.value.port == a.port.value && after.value.left == a.left && after.value.lastSeen == a.now
            else after == before
  {
  }

  /** So many peers are wanted: what was asked for from 1 to 50, otherwise 50. */
  lemma WantedOutcome(a: Announce)
    ensures Wanted(a) == if a.numwant.Some? && 1 <= a.numwant.value < 50 then a.numwant.value else 50
  {
  }

  /** A record is forgotten exactly when it was last seen more than 45 minutes ago. */
  lemma AgedOutcome(p: Peer, now: int)
    ensures Aged(Some(p), now) == if now - p.lastSeen > 2_700_000 then None else Some(p)
    ensures Aged(None, now) == None
  {
  }

  /** The reply asks to come back in half an hour, and not before a quarter of an hour; it counts the
      peers with nothing left as complete and those with something left as incomplete. */
  lemma ReplyOutcome(t: Table, ih: Bytes, peers: Bytes)
    ensures var done := Count(Bucket(t, ih), (p: Peer) => p.left == 0);
            var more := Count(Bucket(t, ih), (p: Peer) => p.left > 0);
            ReplyFields(t, ih, peers)
            == [(Ascii("interval"), Bencode.Number(1800)), (Ascii("min interval"), Bencode.Number(900)),
                (Ascii("complete"), Bencode.Number(done)), (Ascii("incomplete"), Bencode.Number(more)),
                (Ascii("peers"), Bencode.Text(peers))]
  {
    var done, more := Count(Bucket(t, ih), (p: Peer) => p.left == 0), Count(Bucket(t, ih), (p: Peer) => p.left > 0);
    Bencode.OkEntriesByName(1800, 900, done, more, peers);
  }

  function ReasonText(r: Reason): Bytes {
    match r
    case InvalidInfoHash => Ascii("invalid info_hash")
    case InvalidPeerId => Ascii("invalid peer_id")
    case InvalidPort => Ascii("invalid port")
    case CompactRequired => Ascii("compact=1 required")
    case IPv6NotSupported => Ascii("IPv6 not supported")
  }

  class TrackerWorker {
    const table: PeerTable

    constructor ()
      ensures fresh(table) && WellFormed(table.byInfoHash)
    {
      table := new PeerTable();
    }

    method Update(a: Announce, ih: Bytes, peerId: Bytes)
      requires WellFormed(table.byInfoHash) && Complaint(a).None? && ih == InfoHash(a) && peerId == PeerId(a)
      modifies table
      ensures WellFormed(table.byInfoHash)
      ensures forall h, id :: Record(table.byInfoHash, h, id)
                == Announced(a, h, id, Record(old(table.byInfoHash), h, id))
    {
      if a.stopped {
        table.Remove(ih, peerId);
      } else {
        table.Upsert(ih, Peer(peerId, a.address.value, a.port.value, a.left, a.now));
      }
    }

    method Reply(a: Announce, ih: Bytes, peerId: Bytes, perm: nat -> seq<nat>)
      returns (body: Bytes, peers: Bytes, ghost chosen: seq<Peer>)
      requires WellFormed(table.byInfoHash) && IsShuffle(perm) && ih == InfoHash(a) && peerId == PeerId(a)
      ensures Bencode.Parse(body) == Some((Bencode.Dict(ReplyFields(table.byInfoHash, ih, peers)), []))
      ensures Answered(a, table.byInfoHash, peers, chosen)
    {
      var numwant := DEFAULT_NUMWANT;
      if a.numwant.Some? && a.numwant.value >= 0 {
        numwant := Min(a.numwant.value, MAX_PEERS_RETURN);
      }
      var complete := table.CountComplete(ih);
      var incomplete := table.CountIncomplete(ih);
      peers, chosen := table.BuildCompactPeers(ih, peerId, if numwant > 0 then numwant else DEFAULT_NUMWANT, perm);
      body := Bencode.EncodeAnnounceOk(ANNOUNCE_INTERVAL_SEC, MIN_ANNOUNCE_INTERVAL_SEC, complete, incomplete, peers);
    }

    /** The part of handleRead from the query on: refuses with the first complaint and leaves the
        table alone, or records the peer and answers from the table that results. */
    method HandleAnnounce(a: Announce, perm: nat -> seq<nat>)
      returns (body: Bytes, peers: Bytes, ghost chosen: seq<Peer>)
      requires WellFormed(table.byInfoHash) && IsShuffle(perm)
      modifies table
      ensures WellFormed(table.byInfoHash)
      ensures Complaint(a).Some? ==>
                && table.byInfoHash == old(table.byInfoHash)
                && Bencode.Parse(body)
                   == Some((Bencode.Dict([(Bencode.FAILURE_REASON, Bencode.Text(ReasonText(Complaint(a).value)))]), []))
      ensures Complaint(a).None? ==>
                && (forall h, id :: Record(table.byInfoHash, h, id)
                     == Announced(a, h, id, Record(old(table.byInfoHash), h, id)))
                && Bencode.Parse(body) == Some((Bencode.Dict(ReplyFields(table.byInfoHash, InfoHash(a), peers)), []))
                && Answered(a, table.byInfoHash, peers, chosen)
    {
      peers, chosen := [], [];
      var ih := QueryParamRaw(a.query, INFO_HASH);
      var peerId := QueryParamRaw(a.query, PEER_ID);
      var wrong: Option<Reason> := None;
      if |ih| != 20 {
        wrong := Some(InvalidInfoHash);
      } else if |peerId| != 20 {
        wrong := Some(InvalidPeerId);
      } else if a.port.None? || a.port.value <= 0 || a.port.value > 65535 {
        wrong := Some(InvalidPort);
      } else if a.compactRefused {
        wrong := Some(CompactRequired);
      } else if a.address.None? {
        wrong := Some(IPv6NotSupported);
      }
      if wrong.Some? {
        body := Bencode.EncodeAnnounceFailure(ReasonText(wrong.value));
        return;
      }
      Update(a, ih, peerId);
      body, peers, chosen := Reply(a, ih, peerId, perm);
    }
  }
}
