// The UDP tracker's sharded torrent map: announcers look a torrent up, let go of
// the shard and only then write to it, while a cleaner scans every shard under
// its read lock and afterwards drops entries under its write lock.
module UdpSwarm {
  import opened Base
  import opened InfoHashes
  import opened PeerEntries
  import opened PeerMaps

  const NUM_SHARDS := 16

  // `get_shard`
  function ShardOf(hash: InfoHash): (k: nat)
    ensures k < NUM_SHARDS
  {
    hash.first % NUM_SHARDS
  }

  datatype TorrentData = TorrentData(peers: Peers, pendingRemoval: bool)

  type Shard = map<InfoHash, nat>

  // An announcer that has cloned the Arc of a torrent still holds on to it.
  datatype Announcer = Free | Holding(hash: InfoHash, id: nat)

  // The cleaning thread. While it scans a shard it holds the read lock, while it
  // retains the write lock, in between neither. `seen` remembers how many peers
  // the scan of this shard found in each torrent.
  datatype Cleaner =
    | Resting
    | Scanning(shard: nat, todo: set<nat>, seen: map<nat, nat>, now: u32)
    | Flagging(shard: nat, todo: set<nat>, seen: map<nat, nat>, now: u32, id: nat, numPeers: nat)
    | Scanned(shard: nat, seen: map<nat, nat>, now: u32)
    | Retaining(shard: nat, hashes: set<InfoHash>, seen: map<nat, nat>, now: u32)

  // Torrents are objects with identities: an unmapped one lives on for as long
  // as somebody holds it.
  datatype State = State(
    shards: seq<Shard>,
    heap: map<nat, TorrentData>,
    nextId: nat,
    announcers: seq<Announcer>,
    cleaner: Cleaner)

  datatype Action =
    | LookUp(i: nat, hash: InfoHash)
    | Write(i: nat, a: Announcement)
    | StartPass(now: u32)
    | ScanPeers(id: nat)
    | ScanFlag
    | EndScan
    | StartRetain
    | RetainEntry(hash: InfoHash, allowed: bool)
    | EndRetain

  const EMPTY_TORRENT := TorrentData(NO_PEERS, false)

  predicate ReadLocked(s: State, k: nat) {
    (s.cleaner.Scanning? || s.cleaner.Flagging?) && s.cleaner.shard == k
  }

  predicate WriteLocked(s: State, k: nat) {
    s.cleaner.Retaining? && s.cleaner.shard == k
  }

  function Ids(shard: Shard): set<nat> {
    set hash | hash in shard :: shard[hash]
  }

  function WithEntry(shard: Shard, hash: InfoHash, id: nat): Shard {
    shard[hash := id]
  }

  predicate Shaped(s: State) {
    |s.shards| == NUM_SHARDS && (!s.cleaner.Resting? ==> s.cleaner.shard < NUM_SHARDS)
  }

  predicate Mapped(s: State, hash: InfoHash, id: nat)
    requires Shaped(s)
  {
    hash in s.shards[ShardOf(hash)] && s.shards[ShardOf(hash)][hash] == id
  }

  // Under the upgradable lock an absent torrent is created in one go; existing
  // ones can be looked up while the cleaner scans, new ones have to wait.
  function DoLookUp(s: State, i: nat, hash: InfoHash): State
    requires Shaped(s)
  {
    var k := ShardOf(hash);
    if i >= |s.announcers| || s.announcers[i] != Free || WriteLocked(s, k) then s
    else if hash in s.shards[k] then
      s.(announcers := s.announcers[i := Holding(hash, s.shards[k][hash])])
    else if ReadLocked(s, k) then s
    else
      s.(
        shards := s.shards[k := WithEntry(s.shards[k], hash, s.nextId)],
        heap := s.heap[s.nextId := EMPTY_TORRENT],
        nextId := s.nextId + 1,
        announcers := s.announcers[i := Holding(hash, s.nextId)])
  }

  // The torrent is written to whether or not it is still mapped.
  function DoWrite(s: State, i: nat, a: Announcement): State {
    if i < |s.announcers| && s.announcers[i].Holding? && s.announcers[i].id in s.heap then
      var id := s.announcers[i].id;
      s.(
        heap := s.heap[id := s.heap[id].(peers := Announce(s.heap[id].peers, UDP, a))],
        announcers := s.announcers[i := Free])
    else s
  }

  function DoStartPass(s: State, now: u32): State
    requires Shaped(s)
  {
    if s.cleaner.Resting? then s.(cleaner := Scanning(0, Ids(s.shards[0]), map[], now)) else s
  }

  // First half of a scan step, under the lock of the peer map.
  function DoScanPeers(s: State, id: nat): State {
    match s.cleaner
    case Scanning(shard, todo, seen, now) =>
      if id in todo && id in s.heap then
        var peers := Clean(s.heap[id].peers, UDP, now);
        s.(
          heap := s.heap[id := s.heap[id].(peers := peers)],
          cleaner := Flagging(shard, todo - {id}, seen, now, id, |peers.entries|))
      else s
    case _ => s
  }

  // Second half: the lock is gone, the flag follows.
  function DoScanFlag(s: State): State {
    match s.cleaner
    case Flagging(shard, todo, seen, now, id, numPeers) =>
      if id in s.heap then
        s.(
          heap := s.heap[id := s.heap[id].(pendingRemoval := numPeers == 0)],
          cleaner := Scanning(shard, todo, seen[id := numPeers], now))
      else s
    case _ => s
  }

  function DoEndScan(s: State): State {
    match s.cleaner
    case Scanning(shard, todo, seen, now) => if todo == {} then s.(cleaner := Scanned(shard, seen, now)) else s
    case _ => s
  }

  function DoStartRetain(s: State): State
    requires Shaped(s)
  {
    match s.cleaner
    case Scanned(shard, seen, now) => s.(cleaner := Retaining(shard, s.shards[shard].Keys, seen, now))
    case _ => s
  }

  // One entry of the retain pass: forbidden torrents go at once; the flag is read
  // and cleared, and a flagged torrent goes if it is still empty.
  function DoRetainEntry(s: State, hash: InfoHash, allowed: bool): State
    requires Shaped(s)
  {
    match s.cleaner
    case Retaining(shard, hashes, seen, now) =>
      if hash in hashes && hash in s.shards[shard] && s.shards[shard][hash] in s.heap then
        var id := s.shards[shard][hash];
        var torrent := s.heap[id];
        var cleaner := Retaining(shard, hashes - {hash}, seen, now);
        var unmapped := s.shards[shard := s.shards[shard] - {hash}];
        if !allowed then s.(shards := unmapped, cleaner := cleaner)
        else
          s.(
            shards := if torrent.pendingRemoval && torrent.peers.entries == [] then unmapped else s.shards,
            heap := s.heap[id := torrent.(pendingRemoval := false)],
            cleaner := cleaner)
      else s
    case _ => s
  }

  function DoEndRetain(s: State): State
    requires Shaped(s)
  {
    match s.cleaner
    case Retaining(shard, hashes, seen, now) =>
      if hashes != {} then s
      else if shard + 1 < NUM_SHARDS then
        s.(cleaner := Scanning(shard + 1, Ids(s.shards[shard + 1]), map[], now))
      else s.(cleaner := Resting)
    case _ => s
  }

  // One action; an action that is not enabled changes nothing.
  function Step(s: State, a: Action): (t: State)
    requires Shaped(s)
    ensures Shaped(t)
  {
    match a
    case LookUp(i, hash) => DoLookUp(s, i, hash)
    case Write(i, announcement) => DoWrite(s, i, announcement)
    case StartPass(now) => DoStartPass(s, now)
    case ScanPeers(id) => DoScanPeers(s, id)
    case ScanFlag => DoScanFlag(s)
    case EndScan => DoEndScan(s)
    case StartRetain => DoStartRetain(s)
    case RetainEntry(hash, allowed) => DoRetainEntry(s, hash, allowed)
    case EndRetain => DoEndRetain(s)
  }

  // ------------------------------------------------------------ the invariant

  // Identities: every mapped or held torrent exists, and no two entries share one.
  ghost predicate IdsOk(s: State)
    requires Shaped(s)
  {
    && (forall id <- s.heap :: id < s.nextId)
    && (forall hash, id | Mapped(s, hash, id) :: id in s.heap)
    && (forall hash, other, id | Mapped(s, hash, id) && Mapped(s, other, id) :: hash == other)
    && (forall i | 0 <= i < |s.announcers| :: s.announcers[i].Holding? ==> s.announcers[i].id in s.heap)
    && (forall k, hash | 0 <= k < NUM_SHARDS && hash in s.shards[k] :: ShardOf(hash) == k)
  }

  ghost predicate PeersOk(s: State) {
    forall id <- s.heap :: Valid(s.heap[id].peers, UDP)
  }

  // When a mapped torrent may carry the flag: only during the pass over its
  // shard, only after the scan has found it empty, and only until the retain pass
  // has come by.
  predicate MayBeFlagged(s: State, hash: InfoHash, id: nat) {
    && !s.cleaner.Resting?
    && s.cleaner.shard == ShardOf(hash)
    && id in s.cleaner.seen && s.cleaner.seen[id] == 0
    && (s.cleaner.Retaining? ==> hash in s.cleaner.hashes)
  }

  ghost predicate FlagsOk(s: State)
    requires Shaped(s) && IdsOk(s)
  {
    forall hash, id | Mapped(s, hash, id) :: s.heap[id].pendingRemoval ==> MayBeFlagged(s, hash, id)
  }

  // What the cleaner still has to visit, and what it has seen, are torrents of
  // the shard it is working on; under the read lock the shard does not change.
  ghost predicate CleanerOk(s: State)
    requires Shaped(s)
  {
    match s.cleaner
    case Scanning(shard, todo, seen, _) =>
      && todo <= Ids(s.shards[shard])
      && todo !! seen.Keys
      && seen.Keys <= Ids(s.shards[shard])
    case Flagging(shard, todo, seen, _, id, _) =>
      && todo <= Ids(s.shards[shard]) && id in Ids(s.shards[shard])
      && todo !! seen.Keys && id !in seen && id !in todo
      && seen.Keys <= Ids(s.shards[shard])
    case Retaining(shard, hashes, _, _) => hashes <= s.shards[shard].Keys
    case _ => true
  }

  ghost predicate Inv(s: State) {
    Shaped(s) && IdsOk(s) && PeersOk(s) && FlagsOk(s) && CleanerOk(s)
  }

  ghost predicate Initial(s: State) {
    && |s.shards| == NUM_SHARDS
    && (forall shard <- s.shards :: shard == map[])
    && s.heap == map[] && s.nextId == 0
    && (forall announcer <- s.announcers :: announcer == Free)
    && s.cleaner == Resting
  }

  lemma InitialInv(s: State)
    requires Initial(s)
    ensures Inv(s)
  {
    forall k | 0 <= k < NUM_SHARDS
      ensures s.shards[k] == map[]
    {
      assert s.shards[k] in s.shards;
    }
    forall i | 0 <= i < |s.announcers|
      ensures s.announcers[i] == Free
    {
      assert s.announcers[i] in s.announcers;
    }
  }

  lemma LookUpKeeps(s: State, i: nat, hash: InfoHash)
    requires Inv(s)
    ensures Inv(DoLookUp(s, i, hash))
  {
    var k := ShardOf(hash);
    var t := DoLookUp(s, i, hash);
    if i < |s.announcers| && s.announcers[i] == Free && !WriteLocked(s, k) {
      if hash in s.shards[k] {
        assert Mapped(s, hash, s.shards[k][hash]);
        assert forall h, id :: Mapped(t, h, id) <==> Mapped(s, h, id);
      } else if !ReadLocked(s, k) {
        CreateKeeps(s, i, hash);
      }
    }
  }

  lemma CreateKeeps(s: State, i: nat, hash: InfoHash)
    requires Inv(s)
    requires i < |s.announcers| && s.announcers[i] == Free
    requires hash !in s.shards[ShardOf(hash)]
    requires !WriteLocked(s, ShardOf(hash)) && !ReadLocked(s, ShardOf(hash))
    ensures Inv(DoLookUp(s, i, hash))
  {
    var t := DoLookUp(s, i, hash);
    forall h, id | Mapped(t, h, id)
      ensures (h == hash && id == s.nextId) || (h != hash && Mapped(s, h, id))
    {
    }
    assert s.nextId !in s.heap;
    assert IdsOk(t);
    if !s.cleaner.Resting? && s.cleaner.shard != ShardOf(hash) {
      assert t.shards[s.cleaner.shard] == s.shards[s.cleaner.shard];
    }
  }

  // Changing one torrent in place, without touching its flag.
  lemma UpdateKeeps(s: State, id: nat, peers: Peers)
    requires Inv(s) && id in s.heap && Valid(peers, UDP)
    ensures Inv(s.(heap := s.heap[id := s.heap[id].(peers := peers)]))
  {
    var t := s.(heap := s.heap[id := s.heap[id].(peers := peers)]);
    assert forall h, other :: Mapped(t, h, other) <==> Mapped(s, h, other);
  }

  lemma FreeKeeps(s: State, i: nat)
    requires Inv(s) && i < |s.announcers|
    ensures Inv(s.(announcers := s.announcers[i := Free]))
  {
    var t := s.(announcers := s.announcers[i := Free]);
    assert forall h, other :: Mapped(t, h, other) <==> Mapped(s, h, other);
  }

  lemma WriteKeeps(s: State, i: nat, a: Announcement)
    requires Inv(s)
    ensures Inv(DoWrite(s, i, a))
  {
    if i < |s.announcers| && s.announcers[i].Holding? && s.announcers[i].id in s.heap {
      var id := s.announcers[i].id;
      AnnounceRefines(s.heap[id].peers, UDP, a);
      UpdateKeeps(s, id, Announce(s.heap[id].peers, UDP, a));
      FreeKeeps(s.(heap := s.heap[id := s.heap[id].(peers := Announce(s.heap[id].peers, UDP, a))]), i);
    }
  }

  // The cleaner moves on; the flags it leaves must be in order.
  lemma MoveKeeps(s: State, cleaner: Cleaner)
    requires Inv(s)
    requires !cleaner.Resting? ==> cleaner.shard < NUM_SHARDS
    requires CleanerOk(s.(cleaner := cleaner))
    requires forall hash, id | Mapped(s, hash, id) ::
      s.heap[id].pendingRemoval ==> MayBeFlagged(s.(cleaner := cleaner), hash, id)
    ensures Inv(s.(cleaner := cleaner))
  {
    var t := s.(cleaner := cleaner);
    assert forall h, other :: Mapped(t, h, other) <==> Mapped(s, h, other);
  }

  lemma StartPassKeeps(s: State, now: u32)
    requires Inv(s)
    ensures Inv(DoStartPass(s, now))
  {
    if s.cleaner.Resting? {
      MoveKeeps(s, Scanning(0, Ids(s.shards[0]), map[], now));
    }
  }

  lemma ScanPeersKeeps(s: State, id: nat)
    requires Inv(s)
    ensures Inv(DoScanPeers(s, id))
  {
    if s.cleaner.Scanning? && id in s.cleaner.todo && id in s.heap {
      var c := s.cleaner;
      var peers := Clean(s.heap[id].peers, UDP, c.now);
      CleanRefines(s.heap[id].peers, UDP, c.now);
      UpdateKeeps(s, id, peers);
      var t := s.(heap := s.heap[id := s.heap[id].(peers := peers)]);
      assert CleanerOk(t);
      MoveKeeps(t, Flagging(c.shard, c.todo - {id}, c.seen, c.now, id, |peers.entries|));
    }
  }

  lemma ScanFlagKeeps(s: State)
    requires Inv(s)
    ensures Inv(DoScanFlag(s))
  {
    if s.cleaner.Flagging? && s.cleaner.id in s.heap {
      var c := s.cleaner;
      var t := DoScanFlag(s);
      assert forall h, other :: Mapped(t, h, other) <==> Mapped(s, h, other);
      var owner :| owner in s.shards[c.shard] && s.shards[c.shard][owner] == c.id;
      assert Mapped(s, owner, c.id);
      forall hash, id | Mapped(t, hash, id) && t.heap[id].pendingRemoval
        ensures MayBeFlagged(t, hash, id)
      {
        if id == c.id {
          assert hash == owner;
        }
      }
    }
  }

  lemma EndScanKeeps(s: State)
    requires Inv(s)
    ensures Inv(DoEndScan(s))
  {
    if s.cleaner.Scanning? && s.cleaner.todo == {} {
      MoveKeeps(s, Scanned(s.cleaner.shard, s.cleaner.seen, s.cleaner.now));
    }
  }

  lemma StartRetainKeeps(s: State)
    requires Inv(s)
    ensures Inv(DoStartRetain(s))
  {
    if s.cleaner.Scanned? {
      var c := s.cleaner;
      MoveKeeps(s, Retaining(c.shard, s.shards[c.shard].Keys, c.seen, c.now));
    }
  }

  lemma RetainEntryKeeps(s: State, hash: InfoHash, allowed: bool)
    requires Inv(s)
    ensures Inv(DoRetainEntry(s, hash, allowed))
  {
    if s.cleaner.Retaining? && hash in s.cleaner.hashes && hash in s.shards[s.cleaner.shard]
      && s.shards[s.cleaner.shard][hash] in s.heap
    {
      var t := DoRetainEntry(s, hash, allowed);
      var id := s.shards[s.cleaner.shard][hash];
      assert ShardOf(hash) == s.cleaner.shard;
      assert Mapped(s, hash, id);
      forall h, other | Mapped(t, h, other)
        ensures Mapped(s, h, other) && (h == hash ==> !t.heap[other].pendingRemoval)
      {
      }
      forall h, other | Mapped(t, h, other) && t.heap[other].pendingRemoval
        ensures MayBeFlagged(t, h, other)
      {
        assert other != id || h == hash;
      }
    }
  }

  lemma EndRetainKeeps(s: State)
    requires Inv(s)
    ensures Inv(DoEndRetain(s))
  {
    if s.cleaner.Retaining? && s.cleaner.hashes == {} {
      var c := s.cleaner;
      forall hash, id | Mapped(s, hash, id)
        ensures !s.heap[id].pendingRemoval
      {
      }
      if c.shard + 1 < NUM_SHARDS {
        MoveKeeps(s, Scanning(c.shard + 1, Ids(s.shards[c.shard + 1]), map[], c.now));
      } else {
        MoveKeeps(s, Resting);
      }
    }
  }

  lemma StepKeeps(s: State, a: Action)
    requires Inv(s)
    ensures Inv(Step(s, a))
  {
    match a
    case LookUp(i, hash) => LookUpKeeps(s, i, hash);
    case Write(i, announcement) => WriteKeeps(s, i, announcement);
    case StartPass(now) => StartPassKeeps(s, now);
    case ScanPeers(id) => ScanPeersKeeps(s, id);
    case ScanFlag => ScanFlagKeeps(s);
    case EndScan => EndScanKeeps(s);
    case StartRetain => StartRetainKeeps(s);
    case RetainEntry(hash, allowed) => RetainEntryKeeps(s, hash, allowed);
    case EndRetain => EndRetainKeeps(s);
  }

  // ------------------------------------------------------------ what cleaning may do

  function Run(s: State, actions: seq<Action>): (t: State)
    requires Shaped(s)
    ensures Shaped(t)
    decreases |actions|
  {
    if actions == [] then s else Run(Step(s, actions[0]), actions[1..])
  }

  lemma {:induction false} RunKeeps(s: State, actions: seq<Action>)
    requires Inv(s)
    ensures Inv(Run(s, actions))
    decreases |actions|
  {
    if actions != [] {
      StepKeeps(s, actions[0]);
      RunKeeps(Step(s, actions[0]), actions[1..]);
    }
  }

  // Between passes no mapped torrent carries the flag.
  lemma FlagsClearBetweenPasses(s: State, actions: seq<Action>, hash: InfoHash, id: nat)
    requires Initial(s)
    ensures var t := Run(s, actions);
      t.cleaner.Resting? && Mapped(t, hash, id) ==> id in t.heap && !t.heap[id].pendingRemoval
  {
    InitialInv(s);
    RunKeeps(s, actions);
  }

  // When a pass drops an allowed torrent, that torrent is empty right now and was
  // already there, and empty, when this pass scanned its shard. So none is
  // dropped that has a peer at the check, or had one at the scan, or came later.
  lemma OnlyIdleEntriesGo(s: State, actions: seq<Action>, a: Action, hash: InfoHash, id: nat)
    requires Initial(s)
    requires var t := Run(s, actions);
      Mapped(t, hash, id) && !Mapped(Step(t, a), hash, id)
    ensures var t := Run(s, actions);
      && a.RetainEntry? && a.hash == hash && t.cleaner.Retaining?
      && (a.allowed ==>
           && id in t.heap && t.heap[id].peers.entries == []
           && id in t.cleaner.seen && t.cleaner.seen[id] == 0)
  {
    InitialInv(s);
    RunKeeps(s, actions);
    var t := Run(s, actions);
    OnlyRetainUnmaps(t, a, hash, id);
  }

  lemma OnlyRetainUnmaps(t: State, a: Action, hash: InfoHash, id: nat)
    requires Inv(t) && Mapped(t, hash, id) && !Mapped(Step(t, a), hash, id)
    ensures a.RetainEntry? && a.hash == hash && t.cleaner.Retaining?
    ensures a.allowed ==> t.heap[id].pendingRemoval && t.heap[id].peers.entries == []
    ensures a.allowed ==> MayBeFlagged(t, hash, id)
  {
  }

  // ------------------------------------------------------------ what announcers may rely on

  // A scrape of the torrent counts the peer.
  predicate Visible(s: State, hash: InfoHash, key: PeerKey)
    requires Shaped(s)
  {
    var shard := s.shards[ShardOf(hash)];
    hash in shard && shard[hash] in s.heap && HasKey(s.heap[shard[hash]].peers.entries, key)
  }

  function IdOf(s: State, hash: InfoHash): nat
    requires Shaped(s) && hash in s.shards[ShardOf(hash)]
  {
    s.shards[ShardOf(hash)][hash]
  }

  // Counters travel as i32 and are cut off at its maximum.
  function ToI32(n: nat): nat {
    Min(n, 0x7FFF_FFFF)
  }

  datatype ScrapeStats = ScrapeStats(seeders: nat, leechers: nat, completed: nat)

  function Scrape(s: State, hash: InfoHash): ScrapeStats
    requires Shaped(s)
    requires hash in s.shards[ShardOf(hash)] ==>
      var id := s.shards[ShardOf(hash)][hash];
      && id in s.heap
      && var p := s.heap[id].peers;
         && Seeders(p.entries) <= |p.entries|
         && (p.Large? ==> 0 <= p.numSeeders <= |p.entries|)
  {
    var shard := s.shards[ShardOf(hash)];
    if hash in shard then
      var p := s.heap[shard[hash]].peers;
      var counts := Report(p);
      ScrapeStats(ToI32(counts.seeders), ToI32(counts.leechers), ToI32(p.completed))
    else ScrapeStats(0, 0, 0)
  }

  function CutOff(n: nat): nat {
    if n > 2_147_483_647 then 2_147_483_647 else n
  }

  // In every reachable state a scrape is defined and reports the true numbers of
  // the plain map behind the torrent, cut off at the i32 maximum.
  lemma ScrapeIsTrue(s: State, actions: seq<Action>, hash: InfoHash)
    requires Initial(s)
    ensures var t := Run(s, actions);
      hash in t.shards[ShardOf(hash)] ==>
        var id := t.shards[ShardOf(hash)][hash];
        && id in t.heap
        && var p := t.heap[id].peers;
           && Seeders(p.entries) <= |p.entries|
           && (p.Large? ==> 0 <= p.numSeeders <= |p.entries|)
    ensures var t := Run(s, actions);
      hash in t.shards[ShardOf(hash)] ==>
        var plain := Abs(t.heap[t.shards[ShardOf(hash)][hash]].peers);
        var scrape, table := Scrape(t, hash), plain.table;
        && scrape.seeders == CutOff(|set key | key in table && table[key].isSeeder|)
        && scrape.leechers == CutOff(|set key | key in table && !table[key].isSeeder|)
        && scrape.completed == CutOff(plain.completed)
    ensures var t := Run(s, actions);
      hash !in t.shards[ShardOf(hash)] ==> Scrape(t, hash) == ScrapeStats(0, 0, 0)
  {
    InitialInv(s);
    RunKeeps(s, actions);
    var t := Run(s, actions);
    if hash in t.shards[ShardOf(hash)] {
      assert Mapped(t, hash, t.shards[ShardOf(hash)][hash]);
      ReportIsTrue(t.heap[t.shards[ShardOf(hash)][hash]].peers, UDP);
    }
  }

  // The three ways a visible peer may end: it stops, it has expired when the scan
  // comes by, or its torrent is forbidden.
  predicate Ends(s: State, a: Action, hash: InfoHash, key: PeerKey)
    requires Shaped(s) && Visible(s, hash, key)
  {
    var id := IdOf(s, hash);
    match a
    case Write(i, announcement) =>
      && i < |s.announcers| && s.announcers[i].Holding? && s.announcers[i].id == id
      && announcement.key == key && announcement.PeerStatus() == Gone
    case ScanPeers(scanned) =>
      && scanned == id && s.cleaner.Scanning?
      && var entries := s.heap[id].peers.entries;
         !IsValid(entries[IndexOfKey(entries, key)].peer, s.cleaner.now)
    case RetainEntry(entry, allowed) => entry == hash && !allowed
    case _ => false
  }

  predicate NothingEnds(s: State, actions: seq<Action>, hash: InfoHash, key: PeerKey)
    requires Shaped(s)
    decreases |actions|
  {
    actions == [] || (
      && (Visible(s, hash, key) ==> !Ends(s, actions[0], hash, key))
      && NothingEnds(Step(s, actions[0]), actions[1..], hash, key))
  }

  lemma StaysInAnnounced(p: Peers, a: Announcement, key: PeerKey)
    requires Valid(p, UDP) && HasKey(p.entries, key)
    requires a.key == key ==> a.PeerStatus() != Gone
    ensures Valid(Announce(p, UDP, a), UDP) && HasKey(Announce(p, UDP, a).entries, key)
  {
    AnnounceRefines(p, UDP, a);
    TableAt(p.entries, key);
    TableAt(Announce(p, UDP, a).entries, key);
  }

  lemma StaysInCleaned(p: Peers, now: u32, key: PeerKey)
    requires Valid(p, UDP) && HasKey(p.entries, key)
    requires IsValid(p.entries[IndexOfKey(p.entries, key)].peer, now)
    ensures Valid(Clean(p, UDP, now), UDP) && HasKey(Clean(p, UDP, now).entries, key)
  {
    CleanRefines(p, UDP, now);
    TableAt(p.entries, key);
    TableAt(Clean(p, UDP, now).entries, key);
  }

  lemma StepKeepsVisible(s: State, a: Action, hash: InfoHash, key: PeerKey)
    requires Inv(s) && Visible(s, hash, key) && !Ends(s, a, hash, key)
    ensures Visible(Step(s, a), hash, key)
    ensures IdOf(Step(s, a), hash) == IdOf(s, hash)
  {
    var id := IdOf(s, hash);
    assert Mapped(s, hash, id);
    if !Mapped(Step(s, a), hash, id) {
      OnlyRetainUnmaps(s, a, hash, id);
    }
    assert Mapped(Step(s, a), hash, id);
    match a
    case Write(i, announcement) =>
      if i < |s.announcers| && s.announcers[i].Holding? && s.announcers[i].id == id {
        StaysInAnnounced(s.heap[id].peers, announcement, key);
      }
    case ScanPeers(scanned) =>
      if scanned == id && s.cleaner.Scanning? {
        StaysInCleaned(s.heap[id].peers, s.cleaner.now, key);
      }
    case LookUp(_, _) => assert id < s.nextId;
    case _ =>
  }

  // Through any interleaving of announcers and cleaning passes, a peer that is
  // visible stays visible, in the same torrent object, until it stops, expires or
  // its torrent is forbidden.
  lemma {:induction false} StaysVisible(s: State, actions: seq<Action>, hash: InfoHash, key: PeerKey)
    requires Inv(s) && Visible(s, hash, key) && NothingEnds(s, actions, hash, key)
    ensures Visible(Run(s, actions), hash, key)
    ensures IdOf(Run(s, actions), hash) == IdOf(s, hash)
    decreases |actions|
  {
    if actions != [] {
      StepKeeps(s, actions[0]);
      StepKeepsVisible(s, actions[0], hash, key);
      StaysVisible(Step(s, actions[0]), actions[1..], hash, key);
    }
  }

  // ------------------------------------------------------------ from the lookup to the write

  // The retain pass comes by this torrent and lets it go: because it is
  // forbidden, or because it is flagged and empty.
  predicate Drops(s: State, a: Action, hash: InfoHash)
    requires Shaped(s)
  {
    && a.RetainEntry? && a.hash == hash
    && s.cleaner.Retaining? && hash in s.cleaner.hashes
    && hash in s.shards[ShardOf(hash)] && IdOf(s, hash) in s.heap
    && var torrent := s.heap[IdOf(s, hash)];
       !a.allowed || (torrent.pendingRemoval && torrent.peers.entries == [])
  }

  predicate Dropped(s: State, actions: seq<Action>, hash: InfoHash, id: nat)
    requires Shaped(s)
    decreases |actions|
  {
    actions != [] && (
      || (Mapped(s, hash, id) && Drops(s, actions[0], hash))
      || Dropped(Step(s, actions[0]), actions[1..], hash, id))
  }

  // A torrent leaves the map by being dropped only, and never comes back.
  lemma StepMaps(s: State, a: Action, hash: InfoHash, id: nat)
    requires Inv(s) && id in s.heap
    ensures id in Step(s, a).heap
    ensures Mapped(Step(s, a), hash, id) <==> Mapped(s, hash, id) && !Drops(s, a, hash)
  {
    if Mapped(s, hash, id) && !Mapped(Step(s, a), hash, id) {
      OnlyRetainUnmaps(s, a, hash, id);
    }
  }

  predicate NoWriteBy(actions: seq<Action>, i: nat) {
    forall a <- actions :: !(a.Write? && a.i == i)
  }

  lemma StillHeld(s: State, a: Action, i: nat)
    requires Shaped(s) && i < |s.announcers| && s.announcers[i].Holding? && !(a.Write? && a.i == i)
    ensures var t := Step(s, a); i < |t.announcers| && t.announcers[i] == s.announcers[i]
  {
  }

  lemma {:induction false} HeldThroughRun(s: State, actions: seq<Action>, i: nat, hash: InfoHash, id: nat)
    requires Inv(s) && i < |s.announcers| && s.announcers[i] == Holding(hash, id)
    requires NoWriteBy(actions, i)
    ensures var t := Run(s, actions);
      && Inv(t)
      && i < |t.announcers| && t.announcers[i] == Holding(hash, id)
      && (Mapped(t, hash, id) <==> Mapped(s, hash, id) && !Dropped(s, actions, hash, id))
    decreases |actions|
  {
    if actions != [] {
      var next := Step(s, actions[0]);
      assert actions[0] in actions;
      StepKeeps(s, actions[0]);
      StillHeld(s, actions[0], i);
      assert id in s.heap;
      StepMaps(s, actions[0], hash, id);
      HeldThroughRun(next, actions[1..], i, hash, id);
      if !Mapped(next, hash, id) {
        NeverMappedAgain(next, actions[1..], hash, id);
      }
    }
  }

  lemma {:induction false} NeverMappedAgain(s: State, actions: seq<Action>, hash: InfoHash, id: nat)
    requires Inv(s) && id in s.heap && !Mapped(s, hash, id)
    ensures !Mapped(Run(s, actions), hash, id) && !Dropped(s, actions, hash, id)
    decreases |actions|
  {
    if actions != [] {
      StepKeeps(s, actions[0]);
      StepMaps(s, actions[0], hash, id);
      NeverMappedAgain(Step(s, actions[0]), actions[1..], hash, id);
    }
  }

  // Nothing a scrape or a later announcer can find is different.
  ghost predicate SameMapped(s: State, t: State)
    requires Shaped(s) && Shaped(t)
  {
    && t.shards == s.shards
    && forall hash, id | Mapped(s, hash, id) :: id in s.heap && id in t.heap && t.heap[id] == s.heap[id]
  }

  // The peer is stored in the mapped torrent as it was announced.
  predicate Stored(s: State, hash: InfoHash, a: Announcement)
    requires Shaped(s)
  {
    && Visible(s, hash, a.key)
    && var entries := s.heap[IdOf(s, hash)].peers.entries;
       HasKey(entries, a.key) && entries[IndexOfKey(entries, a.key)].peer == a.NewPeer()
  }

  lemma AnnouncedIsStored(p: Peers, a: Announcement)
    requires Valid(p, UDP) && a.PeerStatus() != Gone
    ensures var entries := Announce(p, UDP, a).entries;
      HasKey(entries, a.key) && entries[IndexOfKey(entries, a.key)].peer == a.NewPeer()
  {
    AnnounceRefines(p, UDP, a);
    TableAt(Announce(p, UDP, a).entries, a.key);
  }

  lemma WriteToMapped(s: State, i: nat, a: Announcement)
    requires Inv(s) && i < |s.announcers| && s.announcers[i].Holding? && a.PeerStatus() != Gone
    requires Mapped(s, s.announcers[i].hash, s.announcers[i].id)
    ensures Stored(Step(s, Write(i, a)), s.announcers[i].hash, a)
  {
    var hash, id := s.announcers[i].hash, s.announcers[i].id;
    var written := Announce(s.heap[id].peers, UDP, a);
    AnnouncedIsStored(s.heap[id].peers, a);
    var t := Step(s, Write(i, a));
    assert IdOf(t, hash) == id && t.heap[id].peers == written;
  }

  lemma WriteToOrphan(s: State, i: nat, a: Announcement)
    requires Inv(s) && i < |s.announcers| && s.announcers[i].Holding?
    requires !Mapped(s, s.announcers[i].hash, s.announcers[i].id)
    requires forall hash | Mapped(s, hash, s.announcers[i].id) :: hash == s.announcers[i].hash
    ensures SameMapped(s, Step(s, Write(i, a)))
  {
  }

  // An id that was looked up under one hash is never mapped under another.
  ghost predicate HeldUnderHash(s: State, i: nat)
    requires Shaped(s) && i < |s.announcers| && s.announcers[i].Holding?
  {
    forall hash | Mapped(s, hash, s.announcers[i].id) :: hash == s.announcers[i].hash
  }

  lemma {:induction false} StaysUnderHash(s: State, actions: seq<Action>, i: nat)
    requires Inv(s) && i < |s.announcers| && s.announcers[i].Holding? && HeldUnderHash(s, i)
    requires NoWriteBy(actions, i)
    ensures var t := Run(s, actions);
      i < |t.announcers| && t.announcers[i] == s.announcers[i] && HeldUnderHash(t, i)
    decreases |actions|
  {
    if actions != [] {
      var next, id := Step(s, actions[0]), s.announcers[i].id;
      assert actions[0] in actions;
      StepKeeps(s, actions[0]);
      forall hash | Mapped(next, hash, id)
        ensures hash == s.announcers[i].hash
      {
        StepMaps(s, actions[0], hash, id);
      }
      StaysUnderHash(next, actions[1..], i);
    }
  }

  // From the lookup on. An announcer looks a torrent up; anything may happen
  // before it writes. If and only if a retain pass drops that torrent in between,
  // forbidden or flagged and empty, the announcement is lost: it changes nothing
  // that is mapped. Otherwise the peer is stored in the torrent scrapes see.
  lemma LookUpToWrite(s: State, i: nat, hash: InfoHash, actions: seq<Action>, a: Announcement)
    requires Inv(s) && i < |s.announcers| && s.announcers[i] == Free
    requires Step(s, LookUp(i, hash)).announcers[i] != Free
    requires NoWriteBy(actions, i) && a.PeerStatus() != Gone
    ensures var s1 := Step(s, LookUp(i, hash));
      var t := Run(s1, actions);
      && s1.announcers[i].Holding?
      && if Dropped(s1, actions, hash, s1.announcers[i].id)
         then SameMapped(t, Step(t, Write(i, a)))
         else Stored(Step(t, Write(i, a)), hash, a)
  {
    var s1 := Step(s, LookUp(i, hash));
    var id := s1.announcers[i].id;
    LookUpKeeps(s, i, hash);
    assert s1.announcers[i] == Holding(hash, id) && Mapped(s1, hash, id);
    HeldThroughRun(s1, actions, i, hash, id);
    StaysUnderHash(s1, actions, i);
    var t := Run(s1, actions);
    if Mapped(t, hash, id) {
      WriteToMapped(t, i, a);
    } else {
      WriteToOrphan(t, i, a);
    }
  }

  // No announcement is lost while no retain pass comes by its torrent.
  lemma {:induction false} SafeWithoutRetain(s: State, actions: seq<Action>, hash: InfoHash, id: nat)
    requires Shaped(s) && forall a <- actions :: !(a.RetainEntry? && a.hash == hash)
    ensures !Dropped(s, actions, hash, id)
    decreases |actions|
  {
    if actions != [] {
      assert actions[0] in actions;
      SafeWithoutRetain(Step(s, actions[0]), actions[1..], hash, id);
    }
  }

  // ------------------------------------------------------------ how an announcement gets lost

  lemma {:induction false} RunAppend(s: State, a: seq<Action>, b: seq<Action>)
    requires Shaped(s)
    ensures Run(s, a + b) == Run(Run(s, a), b)
    decreases |a|
  {
    if a == [] {
      assert a + b == b;
    } else {
      assert (a + b)[1..] == a[1..] + b;
      RunAppend(Step(s, a[0]), a[1..], b);
    }
  }

  // The cleaner passes by some shards without any torrents.
  function SkipShards(count: nat): seq<Action> {
    if count == 0 then [] else [EndScan, StartRetain, EndRetain] + SkipShards(count - 1)
  }

  function AtShard(s: State, k: nat, now: u32): State
    requires |s.shards| == NUM_SHARDS && k < NUM_SHARDS
  {
    s.(cleaner := Scanning(k, Ids(s.shards[k]), map[], now))
  }

  lemma SkipOne(s: State, k: nat, now: u32)
    requires |s.shards| == NUM_SHARDS && k + 1 < NUM_SHARDS && s.shards[k] == map[]
    ensures Run(AtShard(s, k, now), [EndScan, StartRetain, EndRetain]) == AtShard(s, k + 1, now)
  {
    var s1 := s.(cleaner := Scanned(k, map[], now));
    var s2 := s.(cleaner := Retaining(k, {}, map[], now));
    assert Ids(s.shards[k]) == {} && s.shards[k].Keys == {};
    assert Step(AtShard(s, k, now), EndScan) == s1;
    assert Step(s1, StartRetain) == s2;
    assert Step(s2, EndRetain) == AtShard(s, k + 1, now);
    assert [EndScan, StartRetain, EndRetain][1..] == [StartRetain, EndRetain];
    assert [StartRetain, EndRetain][1..] == [EndRetain];
    assert [EndRetain][1..] == [];
  }

  lemma {:induction false} SkipMany(s: State, k: nat, count: nat, now: u32)
    requires |s.shards| == NUM_SHARDS && k + count < NUM_SHARDS
    requires forall j | k <= j < k + count :: s.shards[j] == map[]
    ensures Run(AtShard(s, k, now), SkipShards(count)) == AtShard(s, k + count, now)
    decreases count
  {
    if count > 0 {
      SkipOne(s, k, now);
      SkipMany(s, k + 1, count - 1, now);
      RunAppend(AtShard(s, k, now), [EndScan, StartRetain, EndRetain], SkipShards(count - 1));
    }
  }

  // A lookup, a whole cleaning pass up to the torrent that was just created, and
  // then the write.
  function LosingRun(i: nat, hash: InfoHash, a: Announcement, now: u32): seq<Action> {
    [LookUp(i, hash), StartPass(now)] + SkipShards(ShardOf(hash))
    + [ScanPeers(0), ScanFlag, EndScan, StartRetain, RetainEntry(hash, true), Write(i, a)]
  }

  // The flag does not protect a torrent that was just created: if its announcer,
  // whichever it is, is held up for one pass over the shard, the torrent is dropped
  // in that same pass and the announcement goes to an orphan.
  lemma AnnouncementCanBeLost(s: State, i: nat, hash: InfoHash, a: Announcement, now: u32)
    requires Initial(s) && i < |s.announcers| && a.PeerStatus() != Gone
    ensures var t := Run(s, LosingRun(i, hash, a, now));
      t.announcers == s.announcers && !Visible(t, hash, a.key)
  {
    var k := ShardOf(hash);
    var s1 := LooksUp(s, i, hash, now);
    var start := [LookUp(i, hash), StartPass(now)];
    var rest := [ScanPeers(0), ScanFlag, EndScan, StartRetain, RetainEntry(hash, true), Write(i, a)];
    SkipMany(s1, 0, k, now);
    RunAppend(s, start, SkipShards(k));
    RunAppend(s, start + SkipShards(k), rest);
    LostFromScan(s1, i, hash, a, now);
  }

  // The torrent is created, and the pass begins.
  lemma LooksUp(s: State, i: nat, hash: InfoHash, now: u32) returns (s1: State)
    requires Initial(s) && i < |s.announcers|
    ensures |s1.shards| == NUM_SHARDS && s1.shards[ShardOf(hash)] == map[hash := 0]
    ensures forall j | 0 <= j < ShardOf(hash) :: s1.shards[j] == map[]
    ensures s1.heap == map[0 := EMPTY_TORRENT]
    ensures i < |s1.announcers| && s1.announcers[i] == Holding(hash, 0) && s1.announcers[i := Free] == s.announcers
    ensures Run(s, [LookUp(i, hash), StartPass(now)]) == AtShard(s1, 0, now)
  {
    forall j | 0 <= j < NUM_SHARDS
      ensures s.shards[j] == map[]
    {
      assert s.shards[j] in s.shards;
    }
    assert s.announcers[i] in s.announcers;
    var shards := s.shards[ShardOf(hash) := WithEntry(map[], hash, 0)];
    s1 := State(shards, map[0 := EMPTY_TORRENT], 1, s.announcers[i := Holding(hash, 0)], Resting);
    assert Step(s, LookUp(i, hash)) == s1;
    assert Step(s1, StartPass(now)) == AtShard(s1, 0, now);
    RunCons(s, LookUp(i, hash), [StartPass(now)]);
    RunCons(s1, StartPass(now), []);
    assert [LookUp(i, hash)] + [StartPass(now)] == [LookUp(i, hash), StartPass(now)];
    assert [StartPass(now)] + [] == [StartPass(now)];
  }

  lemma ScansEmpty(s: State, k: nat, now: u32)
    requires s.cleaner == Scanning(k, {0}, map[], now) && s.heap == map[0 := EMPTY_TORRENT]
    ensures DoScanPeers(s, 0) == s.(cleaner := Flagging(k, {}, map[], now, 0, 0))
  {
    assert Clean(NO_PEERS, UDP, now) == NO_PEERS;
    assert s.heap[0 := EMPTY_TORRENT] == s.heap;
    assert {0} - {0} == {};
  }

  lemma LostFromScan(s: State, i: nat, hash: InfoHash, a: Announcement, now: u32)
    requires |s.shards| == NUM_SHARDS && s.shards[ShardOf(hash)] == map[hash := 0]
    requires s.heap == map[0 := EMPTY_TORRENT] && i < |s.announcers| && s.announcers[i] == Holding(hash, 0)
    ensures var rest := [ScanPeers(0), ScanFlag, EndScan, StartRetain, RetainEntry(hash, true), Write(i, a)];
      var t := Run(AtShard(s, ShardOf(hash), now), rest);
      t.announcers == s.announcers[i := Free] && !Visible(t, hash, a.key)
  {
    var k := ShardOf(hash);
    assert Ids(s.shards[k]) == {0} by { assert hash in s.shards[k]; }
    var s1 := s.(cleaner := Flagging(k, {}, map[], now, 0, 0));
    ScansEmpty(AtShard(s, k, now), k, now);
    assert Step(AtShard(s, k, now), ScanPeers(0)) == s1;
    var s2 := s.(heap := map[0 := TorrentData(NO_PEERS, true)], cleaner := Scanning(k, {}, map[0 := 0], now));
    assert Step(s1, ScanFlag) == s2;
    var rest := [EndScan, StartRetain, RetainEntry(hash, true), Write(i, a)];
    LostInRetain(s2, i, hash, a, now);
    RunCons(s1, ScanFlag, rest);
    RunCons(AtShard(s, k, now), ScanPeers(0), [ScanFlag] + rest);
    assert [ScanPeers(0)] + ([ScanFlag] + rest)
      == [ScanPeers(0), ScanFlag, EndScan, StartRetain, RetainEntry(hash, true), Write(i, a)];
  }

  lemma RunCons(s: State, a: Action, actions: seq<Action>)
    requires Shaped(s)
    ensures Run(s, [a] + actions) == Run(Step(s, a), actions)
  {
    assert ([a] + actions)[1..] == actions;
  }

  lemma LostInRetain(s4: State, i: nat, hash: InfoHash, a: Announcement, now: u32)
    requires Shaped(s4) && s4.shards[ShardOf(hash)] == map[hash := 0]
    requires s4.heap == map[0 := TorrentData(NO_PEERS, true)]
    requires i < |s4.announcers| && s4.announcers[i] == Holding(hash, 0)
    requires s4.cleaner == Scanning(ShardOf(hash), {}, map[0 := 0], now)
    ensures var t := Run(s4, [EndScan, StartRetain, RetainEntry(hash, true), Write(i, a)]);
      t.announcers == s4.announcers[i := Free] && !Visible(t, hash, a.key)
  {
    var s5 := s4.(cleaner := Scanned(ShardOf(hash), map[0 := 0], now));
    assert DoEndScan(s4) == s5;
    var rest := [StartRetain, RetainEntry(hash, true), Write(i, a)];
    LostAfterScan(s5, i, hash, a, now);
    RunCons(s4, EndScan, rest);
    assert [EndScan] + rest == [EndScan, StartRetain, RetainEntry(hash, true), Write(i, a)];
  }

  lemma StartsRetain(s5: State, hash: InfoHash, now: u32) returns (s6: State)
    requires Shaped(s5) && s5.shards[ShardOf(hash)] == map[hash := 0]
    requires s5.cleaner == Scanned(ShardOf(hash), map[0 := 0], now)
    ensures s6 == s5.(cleaner := Retaining(ShardOf(hash), {hash}, map[0 := 0], now)) == Step(s5, StartRetain)
  {
    assert s5.shards[ShardOf(hash)].Keys == {hash};
    s6 := DoStartRetain(s5);
  }

  lemma LostAfterScan(s5: State, i: nat, hash: InfoHash, a: Announcement, now: u32)
    requires Shaped(s5) && s5.shards[ShardOf(hash)] == map[hash := 0]
    requires s5.heap == map[0 := TorrentData(NO_PEERS, true)]
    requires i < |s5.announcers| && s5.announcers[i] == Holding(hash, 0)
    requires s5.cleaner == Scanned(ShardOf(hash), map[0 := 0], now)
    ensures var t := Run(s5, [StartRetain, RetainEntry(hash, true), Write(i, a)]);
      t.announcers == s5.announcers[i := Free] && !Visible(t, hash, a.key)
  {
    var s6 := StartsRetain(s5, hash, now);
    var rest := [RetainEntry(hash, true), Write(i, a)];
    LostInWrite(s6, i, hash, a);
    RunCons(s5, StartRetain, rest);
    assert [StartRetain] + rest == [StartRetain, RetainEntry(hash, true), Write(i, a)];
  }

  lemma LostInWrite(s6: State, i: nat, hash: InfoHash, a: Announcement)
    requires Shaped(s6) && s6.shards[ShardOf(hash)] == map[hash := 0]
    requires s6.heap == map[0 := TorrentData(NO_PEERS, true)]
    requires i < |s6.announcers| && s6.announcers[i] == Holding(hash, 0)
    requires s6.cleaner.Retaining? && s6.cleaner.shard == ShardOf(hash) && s6.cleaner.hashes == {hash}
    ensures var t := Run(s6, [RetainEntry(hash, true), Write(i, a)]);
      t.announcers == s6.announcers[i := Free] && !Visible(t, hash, a.key)
  {
    var s7 := DoRetainEntry(s6, hash, true);
    assert hash !in s7.shards[ShardOf(hash)];
    var s8 := DoWrite(s7, i, a);
    assert s8.announcers == s6.announcers[i := Free];
    RunCons(s7, Write(i, a), []);
    RunCons(s6, RetainEntry(hash, true), [Write(i, a)]);
    assert [RetainEntry(hash, true)] + [Write(i, a)] == [RetainEntry(hash, true), Write(i, a)];
    assert [Write(i, a)] + [] == [Write(i, a)];
  }
}
