// The statistics the UDP swarm reports: peers added minus peers removed, over all
// announcers and cleaning passes, against the peers a scrape can find.
module UdpTally {
  import opened Base
  import opened InfoHashes
  import opened PeerEntries
  import opened PeerMaps
  import PeerRuns
  import opened UdpSwarm

  // What a step sends to the statistics worker. The retain pass sends nothing.
  function Sent(s: State, a: Action): seq<Message> {
    match a
    case Write(i, announcement) =>
      if i < |s.announcers| && s.announcers[i].Holding? && s.announcers[i].id in s.heap
      then PeerRuns.Messages(s.heap[s.announcers[i].id].peers, PeerRuns.DoAnnounce(announcement))
      else []
    case ScanPeers(id) =>
      if s.cleaner.Scanning? && id in s.cleaner.todo && id in s.heap
      then PeerRuns.Messages(s.heap[id].peers, PeerRuns.DoClean(s.cleaner.now))
      else []
    case _ => []
  }

  function SentInRun(s: State, actions: seq<Action>): seq<Message>
    requires Shaped(s)
    decreases |actions|
  {
    if actions == [] then [] else Sent(s, actions[0]) + SentInRun(Step(s, actions[0]), actions[1..])
  }

  // ------------------------------------------------------------ counting peers

  // The peers of some torrents.
  ghost function PeersIn(heap: map<nat, TorrentData>, ids: set<nat>): nat
    requires ids <= heap.Keys
  {
    if ids == {} then 0
    else
      var id :| id in ids;
      |heap[id].peers.entries| + PeersIn(heap, ids - {id})
  }

  lemma {:induction false} TakeOne(heap: map<nat, TorrentData>, ids: set<nat>, id: nat)
    requires ids <= heap.Keys && id in ids
    ensures PeersIn(heap, ids) == |heap[id].peers.entries| + PeersIn(heap, ids - {id})
    decreases ids
  {
    var first :| first in ids && PeersIn(heap, ids) == |heap[first].peers.entries| + PeersIn(heap, ids - {first});
    if first != id {
      TakeOne(heap, ids - {first}, id);
      TakeOne(heap, ids - {id}, first);
      assert ids - {first} - {id} == ids - {id} - {first};
    }
  }

  lemma {:induction false} SamePeers(heap: map<nat, TorrentData>, other: map<nat, TorrentData>, ids: set<nat>)
    requires ids <= heap.Keys && ids <= other.Keys
    requires forall id <- ids :: |heap[id].peers.entries| == |other[id].peers.entries|
    ensures PeersIn(heap, ids) == PeersIn(other, ids)
    decreases ids
  {
    if ids != {} {
      var id :| id in ids;
      TakeOne(heap, ids, id);
      TakeOne(other, ids, id);
      SamePeers(heap, other, ids - {id});
    }
  }

  lemma {:induction false} SplitPeers(heap: map<nat, TorrentData>, some: set<nat>, others: set<nat>)
    requires some + others <= heap.Keys && some !! others
    ensures PeersIn(heap, some + others) == PeersIn(heap, some) + PeersIn(heap, others)
    decreases some
  {
    if some == {} {
      assert some + others == others;
    } else {
      var id :| id in some;
      TakeOne(heap, some, id);
      TakeOne(heap, some + others, id);
      assert some + others - {id} == (some - {id}) + others;
      SplitPeers(heap, some - {id}, others);
    }
  }

  lemma ReplacedPeers(heap: map<nat, TorrentData>, id: nat, torrent: TorrentData)
    ensures PeersIn(heap[id := torrent], (heap[id := torrent]).Keys)
      == PeersIn(heap, heap.Keys) + |torrent.peers.entries|
         - (if id in heap then |heap[id].peers.entries| else 0)
  {
    var after := heap[id := torrent];
    TakeOne(after, after.Keys, id);
    SamePeers(heap, after, heap.Keys - {id});
    assert after.Keys - {id} == heap.Keys - {id};
    if id in heap {
      TakeOne(heap, heap.Keys, id);
    } else {
      assert heap.Keys - {id} == heap.Keys;
    }
  }

  // ------------------------------------------------------------ over whole runs

  ghost function AllPeers(s: State): nat {
    PeersIn(s.heap, s.heap.Keys)
  }

  lemma WriteTally(s: State, i: nat, a: Announcement)
    requires Inv(s)
    ensures AllPeers(DoWrite(s, i, a)) == AllPeers(s) + PeerRuns.Net(Sent(s, Write(i, a)))
  {
    if i < |s.announcers| && s.announcers[i].Holding? && s.announcers[i].id in s.heap {
      var id := s.announcers[i].id;
      var p := s.heap[id].peers;
      PeerRuns.StepNet(p, UDP, PeerRuns.DoAnnounce(a));
      ReplacedPeers(s.heap, id, s.heap[id].(peers := Announce(p, UDP, a)));
    }
  }

  lemma ScanTally(s: State, id: nat)
    requires Inv(s)
    ensures AllPeers(DoScanPeers(s, id)) == AllPeers(s) + PeerRuns.Net(Sent(s, ScanPeers(id)))
  {
    if s.cleaner.Scanning? && id in s.cleaner.todo && id in s.heap {
      var p := s.heap[id].peers;
      PeerRuns.StepNet(p, UDP, PeerRuns.DoClean(s.cleaner.now));
      ReplacedPeers(s.heap, id, s.heap[id].(peers := Clean(p, UDP, s.cleaner.now)));
    }
  }

  lemma LookUpTally(s: State, i: nat, hash: InfoHash)
    requires Inv(s)
    ensures AllPeers(DoLookUp(s, i, hash)) == AllPeers(s)
  {
    assert s.nextId !in s.heap;
    ReplacedPeers(s.heap, s.nextId, EMPTY_TORRENT);
  }

  lemma FlagTally(s: State, hash: InfoHash, allowed: bool)
    requires Inv(s)
    ensures AllPeers(DoScanFlag(s)) == AllPeers(s)
    ensures AllPeers(DoRetainEntry(s, hash, allowed)) == AllPeers(s)
  {
    var flagged, retained := DoScanFlag(s), DoRetainEntry(s, hash, allowed);
    assert flagged.heap.Keys == s.heap.Keys && retained.heap.Keys == s.heap.Keys;
    SamePeers(s.heap, flagged.heap, s.heap.Keys);
    SamePeers(s.heap, retained.heap, s.heap.Keys);
  }

  lemma StepTally(s: State, a: Action)
    requires Inv(s)
    ensures AllPeers(Step(s, a)) == AllPeers(s) + PeerRuns.Net(Sent(s, a))
  {
    match a
    case LookUp(i, hash) => LookUpTally(s, i, hash);
    case Write(i, announcement) => WriteTally(s, i, announcement);
    case ScanPeers(id) => ScanTally(s, id);
    case ScanFlag => FlagTally(s, InfoHash(0, 0), true);
    case RetainEntry(hash, allowed) => FlagTally(s, hash, allowed);
    case _ =>
  }

  lemma {:induction false} RunTally(s: State, actions: seq<Action>)
    requires Inv(s)
    ensures Inv(Run(s, actions))
    ensures AllPeers(Run(s, actions)) == AllPeers(s) + PeerRuns.Net(SentInRun(s, actions))
    decreases |actions|
  {
    if actions != [] {
      StepKeeps(s, actions[0]);
      StepTally(s, actions[0]);
      RunTally(Step(s, actions[0]), actions[1..]);
      PeerRuns.NetConcat(Sent(s, actions[0]), SentInRun(Step(s, actions[0]), actions[1..]));
    }
  }

  // The torrents a scrape or an announcer can find, and the others.
  ghost function MappedIds(s: State): set<nat>
    requires Shaped(s)
  {
    set id | id in s.heap && exists hash :: Mapped(s, hash, id)
  }

  ghost function OrphanIds(s: State): set<nat>
    requires Shaped(s)
  {
    s.heap.Keys - MappedIds(s)
  }

  lemma {:induction false} NoPeersIff(heap: map<nat, TorrentData>, ids: set<nat>)
    requires ids <= heap.Keys
    ensures PeersIn(heap, ids) == 0 <==> forall id <- ids :: heap[id].peers.entries == []
    decreases ids
  {
    if ids != {} {
      var id :| id in ids;
      TakeOne(heap, ids, id);
      NoPeersIff(heap, ids - {id});
    }
  }

  // Over every run from the start, peers added minus peers removed are the peers of
  // all mapped torrents together with those left in torrents that were unmapped. So
  // the statistics tell the truth if and only if every unmapped torrent is empty: a
  // forbidden torrent takes its peers along unreported, and an announcement to an
  // orphan is reported though nobody can find it.
  lemma TallyIsExact(s: State, actions: seq<Action>)
    requires Initial(s)
    ensures var t := Run(s, actions);
      var net := PeerRuns.Net(SentInRun(s, actions));
      && net == PeersIn(t.heap, MappedIds(t)) + PeersIn(t.heap, OrphanIds(t))
      && (net == PeersIn(t.heap, MappedIds(t)) <==>
           forall id <- OrphanIds(t) :: t.heap[id].peers.entries == [])
  {
    InitialInv(s);
    RunTally(s, actions);
    var t := Run(s, actions);
    assert MappedIds(t) + OrphanIds(t) == t.heap.Keys;
    SplitPeers(t.heap, MappedIds(t), OrphanIds(t));
    NoPeersIff(t.heap, OrphanIds(t));
  }
}
