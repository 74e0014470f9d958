// What a cleaning pass of the UDP swarm achieves: it comes to an end, every peer
// whose time was up is gone, and exactly the idle and forbidden torrents are.
module UdpPass {
  import opened Base
  import opened InfoHashes
  import opened PeerEntries
  import opened PeerMaps
  import opened UdpSwarm

  // The peers of a torrent, as a plain map.
  function TableOf(s: State, id: nat): PeerTable
    requires id in s.heap
  {
    ToTable(s.heap[id].peers.entries)
  }

  lemma MappedIsListed(s: State, hash: InfoHash, id: nat)
    requires Shaped(s) && Mapped(s, hash, id)
    ensures id in Ids(s.shards[ShardOf(hash)])
  {
  }

  // A torrent belongs to one shard only.
  lemma OwnShard(s: State, hash: InfoHash, id: nat, k: nat)
    requires Inv(s) && Mapped(s, hash, id) && k < NUM_SHARDS && id in Ids(s.shards[k])
    ensures ShardOf(hash) == k
  {
    var other :| other in s.shards[k] && s.shards[k][other] == id;
    assert Mapped(s, other, id);
  }

  // A pass begins here.
  predicate Begins(s: State, a: Action) {
    a.StartPass? && s.cleaner.Resting?
  }

  // The scan comes by this torrent.
  predicate Scans(s: State, a: Action, id: nat) {
    a == ScanPeers(id) && s.cleaner.Scanning? && id in s.cleaner.todo && id in s.heap
  }

  // An announcer tells the torrent of this peer.
  predicate Tells(s: State, a: Action, id: nat, key: PeerKey) {
    && a.Write? && a.i < |s.announcers| && s.announcers[a.i].Holding? && s.announcers[a.i].id == id && id in s.heap
    && a.a.key == key && a.a.event != Stopped
  }

  // No pass begins, and the torrent is not scanned.
  predicate Undisturbed(s: State, actions: seq<Action>, id: nat)
    requires Shaped(s)
    decreases |actions|
  {
    actions == [] || (
      && !Begins(s, actions[0]) && !Scans(s, actions[0], id)
      && Undisturbed(Step(s, actions[0]), actions[1..], id))
  }

  // The peer was announced to the torrent since the torrent was last scanned and
  // since the last pass began.
  predicate AnnouncedSinceScan(s: State, actions: seq<Action>, id: nat, key: PeerKey)
    requires Shaped(s)
    decreases |actions|
  {
    actions != [] && (
      || (Tells(s, actions[0], id, key) && Undisturbed(Step(s, actions[0]), actions[1..], id))
      || AnnouncedSinceScan(Step(s, actions[0]), actions[1..], id, key))
  }

  // The time of the last pass that began.
  function TimeAfter(s: State, a: Action, last: Option<u32>): Option<u32> {
    if Begins(s, a) then Some(a.now) else last
  }

  function PassTime(s: State, actions: seq<Action>, last: Option<u32>): Option<u32>
    requires Shaped(s)
    decreases |actions|
  {
    if actions == [] then last else PassTime(Step(s, actions[0]), actions[1..], TimeAfter(s, actions[0], last))
  }

  // ------------------------------------------------------------ expired peers

  // The pass has come by this torrent, or will not.
  predicate Visited(s: State, hash: InfoHash, id: nat) {
    match s.cleaner
    case Resting => true
    case Scanning(shard, todo, _, _) => ShardOf(hash) < shard || (ShardOf(hash) == shard && id !in todo)
    case Flagging(shard, todo, _, _, _, _) => ShardOf(hash) < shard || (ShardOf(hash) == shard && id !in todo)
    case _ => ShardOf(hash) <= s.cleaner.shard
  }

  predicate Expired(s: State, id: nat, key: PeerKey, now: u32) {
    id in s.heap && key in TableOf(s, id) && TableOf(s, id)[key].validUntil <= now
  }

  // An expired peer of a torrent the pass has come by was announced since.
  ghost predicate Cleaned(s: State, last: Option<u32>, told: bool, hash: InfoHash, id: nat, key: PeerKey)
    requires Shaped(s)
  {
    && (!s.cleaner.Resting? ==> last == Some(s.cleaner.now))
    && (last.Some? && Mapped(s, hash, id) && Visited(s, hash, id) && Expired(s, id, key, last.value) ==> told)
  }

  function ToldAfter(s: State, a: Action, told: bool, id: nat, key: PeerKey): bool {
    Tells(s, a, id, key) || (told && !Begins(s, a) && !Scans(s, a, id))
  }

  lemma WriteCleaned(s: State, a: Action, last: Option<u32>, told: bool, hash: InfoHash, id: nat, key: PeerKey)
    requires Inv(s) && a.Write? && Cleaned(s, last, told, hash, id, key)
    ensures Cleaned(Step(s, a), last, ToldAfter(s, a, told, id, key), hash, id, key)
  {
    if a.i < |s.announcers| && s.announcers[a.i].Holding? && s.announcers[a.i].id == id && id in s.heap {
      AnnounceRefines(s.heap[id].peers, UDP, a.a);
    }
  }

  lemma ScanCleaned(s: State, a: Action, last: Option<u32>, told: bool, hash: InfoHash, id: nat, key: PeerKey)
    requires Inv(s) && a.ScanPeers? && Cleaned(s, last, told, hash, id, key)
    ensures Cleaned(Step(s, a), last, ToldAfter(s, a, told, id, key), hash, id, key)
  {
    if Scans(s, a, a.id) {
      CleanKeepsValid(s.heap[a.id].peers, UDP, s.cleaner.now, key);
    }
  }

  lemma LookUpCleaned(s: State, a: Action, last: Option<u32>, told: bool, hash: InfoHash, id: nat, key: PeerKey)
    requires Inv(s) && a.LookUp? && Cleaned(s, last, told, hash, id, key)
    ensures Cleaned(Step(s, a), last, told, hash, id, key)
  {
    assert ToTable(EMPTY_TORRENT.peers.entries) == map[];
  }

  // The cleaner starts on a shard, with all its torrents to do.
  lemma ShardCleaned(s: State, k: nat, last: Option<u32>, told: bool, hash: InfoHash, id: nat, key: PeerKey)
    requires Shaped(s) && k < NUM_SHARDS && last.Some?
    requires Mapped(s, hash, id) && ShardOf(hash) < k && Expired(s, id, key, last.value) ==> told
    ensures Cleaned(s.(cleaner := Scanning(k, Ids(s.shards[k]), map[], last.value)), last, told, hash, id, key)
  {
    if Mapped(s, hash, id) {
      MappedIsListed(s, hash, id);
    }
  }

  lemma PassCleaned(s: State, a: Action, last: Option<u32>, told: bool, hash: InfoHash, id: nat, key: PeerKey)
    requires Inv(s) && (a.StartPass? || a.EndRetain?) && Cleaned(s, last, told, hash, id, key)
    ensures Cleaned(Step(s, a), TimeAfter(s, a, last), ToldAfter(s, a, told, id, key), hash, id, key)
  {
    if Begins(s, a) {
      ShardCleaned(s, 0, Some(a.now), false, hash, id, key);
    } else if a.EndRetain? && s.cleaner.Retaining? && s.cleaner.hashes == {} && s.cleaner.shard + 1 < NUM_SHARDS {
      ShardCleaned(s, s.cleaner.shard + 1, last, told, hash, id, key);
    }
  }

  lemma EntryCleaned(s: State, a: Action, last: Option<u32>, told: bool, hash: InfoHash, id: nat, key: PeerKey)
    requires Inv(s) && (a.ScanFlag? || a.EndScan? || a.StartRetain? || a.RetainEntry?)
    requires Cleaned(s, last, told, hash, id, key)
    ensures Cleaned(Step(s, a), last, told, hash, id, key)
  {
  }

  lemma StepCleaned(s: State, a: Action, last: Option<u32>, told: bool, hash: InfoHash, id: nat, key: PeerKey)
    requires Inv(s) && Cleaned(s, last, told, hash, id, key)
    ensures Cleaned(Step(s, a), TimeAfter(s, a, last), ToldAfter(s, a, told, id, key), hash, id, key)
  {
    if a.Write? {
      WriteCleaned(s, a, last, told, hash, id, key);
    } else if a.ScanPeers? {
      ScanCleaned(s, a, last, told, hash, id, key);
    } else if a.LookUp? {
      LookUpCleaned(s, a, last, told, hash, id, key);
    } else if a.StartPass? || a.EndRetain? {
      PassCleaned(s, a, last, told, hash, id, key);
    } else {
      EntryCleaned(s, a, last, told, hash, id, key);
    }
  }

  lemma {:induction false} RunCleaned(
      s: State, actions: seq<Action>, last: Option<u32>, told: bool, hash: InfoHash, id: nat, key: PeerKey)
    requires Inv(s) && Cleaned(s, last, told, hash, id, key)
    ensures Cleaned(Run(s, actions), PassTime(s, actions, last),
      AnnouncedSinceScan(s, actions, id, key) || (told && Undisturbed(s, actions, id)), hash, id, key)
    decreases |actions|
  {
    if actions != [] {
      var a := actions[0];
      StepKeeps(s, a);
      StepCleaned(s, a, last, told, hash, id, key);
      RunCleaned(Step(s, a), actions[1..], TimeAfter(s, a, last), ToldAfter(s, a, told, id, key), hash, id, key);
    }
  }

  // The scan of the torrent's shard is over, or the whole pass is.
  predicate ScanIsOver(s: State, hash: InfoHash) {
    || s.cleaner.Resting?
    || ShardOf(hash) < s.cleaner.shard
    || (ShardOf(hash) == s.cleaner.shard && (s.cleaner.Scanned? || s.cleaner.Retaining?))
  }

  // Every pass cleans. In every run, once the scan of a shard is over, and from
  // then on until the next pass comes by: a mapped torrent of that shard holds a
  // peer whose time was up when the pass began only if that peer was announced to
  // it after the torrent's own scan.
  lemma ExpiredAreGone(s: State, actions: seq<Action>, hash: InfoHash, id: nat, key: PeerKey)
    requires Initial(s) && PassTime(s, actions, None).Some?
    requires var t := Run(s, actions);
      && Mapped(t, hash, id) && ScanIsOver(t, hash)
      && Expired(t, id, key, PassTime(s, actions, None).value)
    ensures AnnouncedSinceScan(s, actions, id, key)
  {
    InitialInv(s);
    RunCleaned(s, actions, None, false, hash, id, key);
    RunKeeps(s, actions);
  }

  // So between passes a peer whose time was up when the last one began, and that
  // was not announced since its torrent was scanned, is in no torrent that scrapes
  // or announcers find.
  lemma WholePassCleans(s: State, actions: seq<Action>, hash: InfoHash, id: nat, key: PeerKey)
    requires Initial(s) && PassTime(s, actions, None).Some? && Run(s, actions).cleaner.Resting?
    requires !AnnouncedSinceScan(s, actions, id, key)
    ensures var t := Run(s, actions);
      !(Mapped(t, hash, id) && Expired(t, id, key, PassTime(s, actions, None).value))
  {
    var t := Run(s, actions);
    if Mapped(t, hash, id) && Expired(t, id, key, PassTime(s, actions, None).value) {
      ExpiredAreGone(s, actions, hash, id, key);
    }
  }

  // ------------------------------------------------------------ dropped torrents

  // Whether the last scan of this pass left the torrent without a peer.
  predicate EmptyAfter(s: State, a: Action, empty: bool, id: nat)
    requires Shaped(s)
  {
    if Begins(s, a) then false
    else if Scans(s, a, id) then id in Step(s, a).heap && TableOf(Step(s, a), id) == map[]
    else empty
  }

  predicate FoundEmpty(s: State, actions: seq<Action>, empty: bool, id: nat)
    requires Shaped(s)
    decreases |actions|
  {
    if actions == [] then empty
    else FoundEmpty(Step(s, actions[0]), actions[1..], EmptyAfter(s, actions[0], empty, id), id)
  }

  // The flag of a torrent says what its scan found, until its retain check.
  ghost predicate FlagIsExact(s: State, empty: bool, hash: InfoHash, id: nat)
    requires Shaped(s)
  {
    && (id !in s.heap ==> !empty)
    && (!s.cleaner.Resting? && id in s.heap && Mapped(s, hash, id) && s.cleaner.shard <= ShardOf(hash) ==>
          if !Visited(s, hash, id) then !empty
          else if s.cleaner.Flagging? && s.cleaner.id == id then empty <==> s.cleaner.numPeers == 0
          else if s.cleaner.Retaining? && hash !in s.cleaner.hashes then true
          else empty <==> s.heap[id].pendingRemoval)
  }

  lemma NoKeys(entries: seq<Entry>)
    requires DistinctKeys(entries)
    ensures ToTable(entries) == map[] <==> |entries| == 0
  {
    TableSize(entries);
    assert ToTable(entries) == map[] <==> |ToTable(entries)| == 0;
  }

  lemma ScanFlagsExactly(s: State, a: Action, empty: bool, hash: InfoHash, id: nat)
    requires Inv(s) && a.ScanPeers? && FlagIsExact(s, empty, hash, id)
    ensures FlagIsExact(Step(s, a), EmptyAfter(s, a, empty, id), hash, id)
  {
    if Scans(s, a, a.id) {
      CleanRefines(s.heap[a.id].peers, UDP, s.cleaner.now);
      NoKeys(Clean(s.heap[a.id].peers, UDP, s.cleaner.now).entries);
      if Mapped(s, hash, a.id) {
        OwnShard(s, hash, a.id, s.cleaner.shard);
      }
    }
  }

  lemma StartsExactly(s: State, k: nat, now: u32, empty: bool, hash: InfoHash, id: nat)
    requires Shaped(s) && k < NUM_SHARDS && (id !in s.heap ==> !empty)
    requires Mapped(s, hash, id) && k <= ShardOf(hash) ==> !empty
    ensures FlagIsExact(s.(cleaner := Scanning(k, Ids(s.shards[k]), map[], now)), empty, hash, id)
  {
    if Mapped(s, hash, id) {
      MappedIsListed(s, hash, id);
    }
  }

  lemma PassFlagsExactly(s: State, a: Action, empty: bool, hash: InfoHash, id: nat)
    requires Inv(s) && (a.StartPass? || a.EndRetain?) && FlagIsExact(s, empty, hash, id)
    ensures FlagIsExact(Step(s, a), EmptyAfter(s, a, empty, id), hash, id)
  {
    if Begins(s, a) {
      StartsExactly(s, 0, a.now, false, hash, id);
    } else if a.EndRetain? && s.cleaner.Retaining? && s.cleaner.hashes == {} && s.cleaner.shard + 1 < NUM_SHARDS {
      StartsExactly(s, s.cleaner.shard + 1, s.cleaner.now, empty, hash, id);
    }
  }

  lemma WriteFlagsExactly(s: State, a: Action, empty: bool, hash: InfoHash, id: nat)
    requires Inv(s) && a.Write? && FlagIsExact(s, empty, hash, id)
    ensures FlagIsExact(Step(s, a), empty, hash, id)
  {
  }

  lemma LookUpFlagsExactly(s: State, a: Action, empty: bool, hash: InfoHash, id: nat)
    requires Inv(s) && a.LookUp? && FlagIsExact(s, empty, hash, id)
    ensures FlagIsExact(Step(s, a), empty, hash, id)
  {
    var t := Step(s, a);
    assert s.nextId !in s.heap;
    if Mapped(s, hash, id) {
      assert id in s.heap;
    } else if Mapped(t, hash, id) {
      assert hash == a.hash && id == s.nextId && !t.heap[id].pendingRemoval && !empty;
      if s.cleaner.Flagging? {
        assert s.cleaner.shard != ShardOf(hash);
      }
    }
  }

  lemma MoveFlagsExactly(s: State, a: Action, empty: bool, hash: InfoHash, id: nat)
    requires Inv(s) && (a.ScanFlag? || a.EndScan? || a.StartRetain?) && FlagIsExact(s, empty, hash, id)
    ensures FlagIsExact(Step(s, a), empty, hash, id)
  {
    if s.cleaner.Flagging? && Mapped(s, hash, s.cleaner.id) {
      OwnShard(s, hash, s.cleaner.id, s.cleaner.shard);
    }
  }

  lemma EntryFlagsExactly(s: State, a: Action, empty: bool, hash: InfoHash, id: nat)
    requires Inv(s) && a.RetainEntry? && FlagIsExact(s, empty, hash, id)
    ensures FlagIsExact(Step(s, a), empty, hash, id)
  {
    if s.cleaner.Retaining? && a.hash in s.cleaner.hashes && a.hash in s.shards[s.cleaner.shard] {
      var checked := s.shards[s.cleaner.shard][a.hash];
      assert ShardOf(a.hash) == s.cleaner.shard && Mapped(s, a.hash, checked);
      var t := Step(s, a);
      assert Mapped(t, hash, id) ==> Mapped(s, hash, id);
      assert Mapped(s, hash, id) && id == checked ==> hash == a.hash;
    }
  }

  lemma {:induction false} RunFlagsExactly(s: State, actions: seq<Action>, empty: bool, hash: InfoHash, id: nat)
    requires Inv(s) && FlagIsExact(s, empty, hash, id)
    ensures FlagIsExact(Run(s, actions), FoundEmpty(s, actions, empty, id), hash, id)
    decreases |actions|
  {
    if actions != [] {
      var a := actions[0];
      StepKeeps(s, a);
      if a.ScanPeers? {
        ScanFlagsExactly(s, a, empty, hash, id);
      } else if a.StartPass? || a.EndRetain? {
        PassFlagsExactly(s, a, empty, hash, id);
      } else if a.LookUp? {
        LookUpFlagsExactly(s, a, empty, hash, id);
      } else if a.Write? {
        WriteFlagsExactly(s, a, empty, hash, id);
      } else if a.RetainEntry? {
        EntryFlagsExactly(s, a, empty, hash, id);
      } else {
        MoveFlagsExactly(s, a, empty, hash, id);
      }
      RunFlagsExactly(Step(s, a), actions[1..], EmptyAfter(s, a, empty, id), hash, id);
    }
  }

  // In every run the retain check unmaps a torrent exactly if it is forbidden, or
  // its scan in this pass left it without a peer and it still has none.
  lemma RetainDropsExactly(s: State, actions: seq<Action>, hash: InfoHash, id: nat, allowed: bool)
    requires Initial(s)
    requires var t := Run(s, actions);
      t.cleaner.Retaining? && hash in t.cleaner.hashes && Mapped(t, hash, id)
    ensures var t := Run(s, actions);
      && id in t.heap
      && (Mapped(Step(t, RetainEntry(hash, allowed)), hash, id) <==>
            allowed && !(FoundEmpty(s, actions, false, id) && TableOf(t, id) == map[]))
  {
    InitialInv(s);
    RunKeeps(s, actions);
    RunFlagsExactly(s, actions, false, hash, id);
    NoKeys(Run(s, actions).heap[id].peers.entries);
  }

  // ------------------------------------------------------------ passes end

  predicate IsCleanerAction(a: Action) {
    !a.LookUp? && !a.Write?
  }

  function Phase(cleaner: Cleaner): nat {
    match cleaner
    case Resting => 0
    case Retaining(_, _, _, _) => 1
    case Scanned(_, _, _) => 2
    case _ => 3
  }

  function Work(cleaner: Cleaner): nat {
    match cleaner
    case Scanning(_, todo, _, _) => 2 * |todo|
    case Flagging(_, todo, _, _, _, _) => 2 * |todo| + 1
    case Retaining(_, hashes, _, _) => |hashes|
    case _ => 0
  }

  function ShardsLeft(cleaner: Cleaner): int {
    if cleaner.Resting? then 0 else NUM_SHARDS - cleaner.shard
  }

  // There is always a next step, and it leaves less to do.
  lemma NextStep(s: State, allowed: InfoHash -> bool) returns (a: Action)
    requires Inv(s) && !s.cleaner.Resting?
    ensures IsCleanerAction(a) && (a.RetainEntry? ==> a.allowed == allowed(a.hash))
    ensures var before, after := s.cleaner, Step(s, a).cleaner;
      || ShardsLeft(after) < ShardsLeft(before)
      || (ShardsLeft(after) == ShardsLeft(before) && Phase(after) < Phase(before))
      || (ShardsLeft(after) == ShardsLeft(before) && Phase(after) == Phase(before) && Work(after) < Work(before))
  {
    match s.cleaner
    case Scanning(shard, todo, seen, now) =>
      if todo == {} {
        a := EndScan;
      } else {
        var id :| id in todo;
        TodoExists(s, id);
        a := ScanPeers(id);
      }
    case Flagging(shard, todo, seen, now, id, numPeers) =>
      TodoExists(s, id);
      a := ScanFlag;
    case Scanned(_, _, _) => a := StartRetain;
    case Retaining(shard, hashes, seen, now) =>
      if hashes == {} {
        a := EndRetain;
      } else {
        var hash :| hash in hashes;
        assert ShardOf(hash) == shard && Mapped(s, hash, s.shards[shard][hash]);
        a := RetainEntry(hash, allowed(hash));
      }
  }

  lemma TodoExists(s: State, id: nat)
    requires Inv(s) && !s.cleaner.Resting? && id in Ids(s.shards[s.cleaner.shard])
    ensures id in s.heap
  {
    var hash :| hash in s.shards[s.cleaner.shard] && s.shards[s.cleaner.shard][hash] == id;
    assert Mapped(s, hash, id);
  }

  // A pass never gets stuck: from every reachable state the cleaner's own steps,
  // with whatever the access list says, lead to its end.
  lemma {:induction false} PassEnds(s: State, allowed: InfoHash -> bool) returns (actions: seq<Action>)
    requires Inv(s)
    ensures Run(s, actions).cleaner.Resting?
    ensures forall a <- actions :: IsCleanerAction(a) && (a.RetainEntry? ==> a.allowed == allowed(a.hash))
    decreases ShardsLeft(s.cleaner), Phase(s.cleaner), Work(s.cleaner)
  {
    if s.cleaner.Resting? {
      actions := [];
    } else {
      var a := NextStep(s, allowed);
      StepKeeps(s, a);
      var rest := PassEnds(Step(s, a), allowed);
      actions := [a] + rest;
      RunCons(s, a, rest);
    }
  }
}
