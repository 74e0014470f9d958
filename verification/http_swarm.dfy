// The HTTP tracker's swarm worker: a map of torrents with a gauge of its peers,
// and scrapes that are spread over several such workers.
module HttpSwarm {
  import opened Base
  import opened InfoHashes
  import opened PeerEntries
  import opened PeerMaps

  type Torrents = map<InfoHash, Peers>

  ghost predicate TorrentsOk(torrents: Torrents) {
    forall hash <- torrents :: Valid(torrents[hash], HTTP)
  }

  // `entry(..).or_default()`
  function PeersOf(torrents: Torrents, hash: InfoHash): Peers {
    if hash in torrents then torrents[hash] else NO_PEERS
  }

  function Upsert(torrents: Torrents, hash: InfoHash, a: Announcement): Torrents {
    torrents[hash := Announce(PeersOf(torrents, hash), HTTP, a)]
  }

  // Forbidden torrents go without being looked at, the others are cleaned and go
  // if that leaves them empty.
  function CleanAll(torrents: Torrents, allowed: InfoHash -> bool, now: u32): Torrents {
    map hash | hash in torrents && allowed(hash) && Clean(torrents[hash], HTTP, now).entries != [] ::
      Clean(torrents[hash], HTTP, now)
  }

  lemma UpsertOk(torrents: Torrents, hash: InfoHash, a: Announcement)
    requires TorrentsOk(torrents)
    ensures Valid(PeersOf(torrents, hash), HTTP)
    ensures TorrentsOk(Upsert(torrents, hash, a))
  {
    AnnounceRefines(PeersOf(torrents, hash), HTTP, a);
  }

  lemma CleanAllOk(torrents: Torrents, allowed: InfoHash -> bool, now: u32)
    requires TorrentsOk(torrents)
    ensures TorrentsOk(CleanAll(torrents, allowed, now))
  {
    forall hash | hash in CleanAll(torrents, allowed, now)
      ensures Valid(CleanAll(torrents, allowed, now)[hash], HTTP)
    {
      CleanRefines(torrents[hash], HTTP, now);
    }
  }

  // ------------------------------------------------------------ the peer gauge

  // All peers over all torrents.
  ghost function TotalPeers(torrents: Torrents): nat {
    if torrents == map[] then 0
    else
      var hash :| hash in torrents;
      |torrents[hash].entries| + TotalPeers(torrents - {hash})
  }

  lemma {:induction false} TotalSplit(torrents: Torrents, hash: InfoHash)
    requires hash in torrents
    ensures TotalPeers(torrents) == |torrents[hash].entries| + TotalPeers(torrents - {hash})
    decreases torrents.Keys
  {
    var first :| first in torrents &&
      TotalPeers(torrents) == |torrents[first].entries| + TotalPeers(torrents - {first});
    if first != hash {
      TotalSplit(torrents - {first}, hash);
      TotalSplit(torrents - {hash}, first);
      assert torrents - {first} - {hash} == torrents - {hash} - {first};
    }
  }

  lemma TotalReplace(torrents: Torrents, hash: InfoHash, peers: Peers)
    ensures TotalPeers(torrents[hash := peers])
      == TotalPeers(torrents) - |PeersOf(torrents, hash).entries| + |peers.entries|
  {
    TotalSplit(torrents[hash := peers], hash);
    assert torrents[hash := peers] - {hash} == torrents - {hash};
    if hash in torrents {
      TotalSplit(torrents, hash);
    } else {
      assert torrents - {hash} == torrents;
    }
  }

  // An announcement changes the number of peers of its torrent by one at most,
  // and by how much is decided by whether the peer was there.
  lemma AnnounceSize(p: Peers, a: Announcement)
    requires Valid(p, HTTP)
    ensures |Announce(p, HTTP, a).entries| == |p.entries| + GaugeChange(HasKey(p.entries, a.key), a)
  {
    AnnounceRefines(p, HTTP, a);
    TableSize(p.entries);
    TableSize(Announce(p, HTTP, a).entries);
    TableAt(p.entries, a.key);
    var table := ToTable(p.entries);
    assert (table - {a.key}).Keys == table.Keys - {a.key};
    assert table[a.key := a.NewPeer()].Keys == table.Keys + {a.key};
  }

  function GaugeChange(known: bool, a: Announcement): int {
    if a.PeerStatus() == Gone then (if known then -1 else 0) else if known then 0 else 1
  }

  // The gauge's bookkeeping is exact: the one it counts up or down by is the
  // difference the announcement makes to the peers of all torrents together.
  lemma GaugeChangeIsExact(torrents: Torrents, hash: InfoHash, a: Announcement)
    requires TorrentsOk(torrents)
    ensures TotalPeers(Upsert(torrents, hash, a))
      == TotalPeers(torrents) + GaugeChange(HasKey(PeersOf(torrents, hash).entries, a.key), a)
  {
    UpsertOk(torrents, hash, a);
    AnnounceSize(PeersOf(torrents, hash), a);
    TotalReplace(torrents, hash, Announce(PeersOf(torrents, hash), HTTP, a));
  }

  datatype ScrapeStats = ScrapeStats(complete: nat, incomplete: nat, downloaded: nat)

  function StatsOf(plain: Plain): ScrapeStats {
    var counts := TrueCounts(plain.table);
    ScrapeStats(counts.seeders, counts.leechers, plain.completed)
  }

  // What the three numbers are to mean.
  ghost predicate Tells(stats: ScrapeStats, plain: Plain) {
    && stats.complete == |set key | key in plain.table && plain.table[key].isSeeder|
    && stats.incomplete == |set key | key in plain.table && !plain.table[key].isSeeder|
    && stats.downloaded == plain.completed
  }

  type Files = map<InfoHash, ScrapeStats>

  function Stats(torrents: Torrents, hash: InfoHash): ScrapeStats {
    if hash in torrents then StatsOf(Abs(torrents[hash])) else ScrapeStats(0, 0, 0)
  }

  // The numbers of a torrent are those of its plain map; a torrent that is not
  // stored has none.
  lemma StatsTell(torrents: Torrents, hash: InfoHash)
    ensures Tells(Stats(torrents, hash), Abs(PeersOf(torrents, hash)))
    ensures hash !in torrents ==> Stats(torrents, hash) == ScrapeStats(0, 0, 0)
  {
    var table := Abs(PeersOf(torrents, hash)).table;
    TrueCountsCount(table);
    if hash !in torrents {
      assert |table| == 0;
    }
  }

  // Only the first `limit` hashes of a request are answered.
  function ScrapeFiles(torrents: Torrents, hashes: seq<InfoHash>, limit: nat): Files {
    map hash | hash in hashes[..Min(limit, |hashes|)] :: Stats(torrents, hash)
  }

  // A swarm worker's map for one IP version.
  class TorrentMap {
    var torrents: Torrents
    var peerGauge: int

    constructor ()
      ensures torrents == map[] && Ok()
    {
      torrents, peerGauge := map[], 0;
    }

    ghost predicate Ok()
      reads this
    {
      TorrentsOk(torrents) && peerGauge == TotalPeers(torrents)
    }

    method UpsertPeer(hash: InfoHash, a: Announcement, limit: nat) returns (reply: Reply)
      requires Ok()
      modifies this
      ensures Ok() && torrents == Upsert(old(torrents), hash, a)
      ensures IsReply(reply, old(Abs(PeersOf(torrents, hash)).table) - {a.key}, limit)
    {
      var updated, change;
      reply, change, updated := AnnounceTo(hash, a, limit);
      UpsertOk(torrents, hash, a);
      GaugeChangeIsExact(torrents, hash, a);
      torrents, peerGauge := updated, peerGauge + change;
    }

    method CountPeer(a: Announcement, replaced: bool) returns (change: int)
      ensures change == GaugeChange(replaced, a)
    {
      change := 0;
      if a.PeerStatus() != Gone {
        if !replaced {
          change := 1;
        }
      } else if replaced {
        change := -1;
      }
    }

    method AnnounceTo(hash: InfoHash, a: Announcement, limit: nat)
      returns (reply: Reply, change: int, updated: Torrents)
      requires TorrentsOk(torrents)
      ensures IsReply(reply, Abs(PeersOf(torrents, hash)).table - {a.key}, limit)
      ensures change == GaugeChange(HasKey(PeersOf(torrents, hash).entries, a.key), a)
      ensures updated == Upsert(torrents, hash, a)
    {
      var peers := PeersOf(torrents, hash);
      UpsertOk(torrents, hash, a);
      TableAt(peers.entries, a.key);
      var torrent := new PeerMap.Of(peers, HTTP, false);
      var replaced;
      reply, replaced := torrent.AnnouncePeer(a, limit);
      change := CountPeer(a, replaced);
      updated := torrents[hash := torrent.Value()];
    }

    method HandleScrape(hashes: seq<InfoHash>, limit: nat) returns (files: Files)
      requires Ok()
      ensures files == ScrapeFiles(torrents, hashes, limit)
      ensures files.Keys == SetOf(hashes[..Min(limit, |hashes|)])
      ensures forall hash <- files :: Tells(files[hash], Abs(PeersOf(torrents, hash)))
    {
      files := map[];
      var numToTake := Min(|hashes|, limit);
      for i := 0 to numToTake
        invariant files == map hash | hash in hashes[..i] :: Stats(torrents, hash)
      {
        var hash := hashes[i];
        var stats := ScrapeOne(hash);
        assert hashes[..i + 1] == hashes[..i] + [hash];
        files := files[hash := stats];
      }
      forall hash | hash in files
        ensures Tells(files[hash], Abs(PeersOf(torrents, hash)))
      {
        StatsTell(torrents, hash);
      }
    }

    method ScrapeOne(hash: InfoHash) returns (stats: ScrapeStats)
      requires Ok()
      ensures stats == Stats(torrents, hash)
    {
      if hash !in torrents {
        return ScrapeStats(0, 0, 0);
      }
      var torrent := new PeerMap.Of(torrents[hash], HTTP, false);
      var counts := torrent.ReportCounts();
      stats := ScrapeStats(counts.seeders, counts.leechers, torrent.completed);
    }

    method CleanOne(peers: Peers, now: u32) returns (cleaned: Peers, numPeers: nat)
      requires Valid(peers, HTTP)
      ensures cleaned == Clean(peers, HTTP, now) && numPeers == |cleaned.entries|
    {
      var torrent := new PeerMap.Of(peers, HTTP, false);
      numPeers := torrent.CleanPeers(now);
      cleaned := torrent.Value();
    }

    // `retain` with a running total, in whatever order the map has.
    method CleanTorrents(allowed: InfoHash -> bool, now: u32)
      requires Ok()
      modifies this
      ensures Ok() && torrents == CleanAll(old(torrents), allowed, now)
    {
      CleanAllOk(torrents, allowed, now);
      var kept, total := RetainTorrents(allowed, now);
      torrents, peerGauge := kept, total;
    }

    method RetainTorrents(allowed: InfoHash -> bool, now: u32) returns (kept: Torrents, total: nat)
      requires TorrentsOk(torrents)
      ensures kept == CleanAll(torrents, allowed, now) && total == TotalPeers(kept)
    {
      var todo := torrents.Keys;
      ghost var done := {};
      kept, total := map[], 0;
      while todo != {}
        invariant done <= torrents.Keys && todo == torrents.Keys - done
        invariant kept == CleanSome(torrents, done, allowed, now)
        invariant total == TotalPeers(kept)
        decreases todo
      {
        var hash :| hash in todo;
        CleanOneMore(torrents, done, hash, allowed, now);
        todo, done := todo - {hash}, done + {hash};
        if allowed(hash) {
          var cleaned, numPeers := CleanOne(torrents[hash], now);
          total := total + numPeers;
          if numPeers > 0 {
            TotalReplace(kept, hash, cleaned);
            kept := kept[hash := cleaned];
          }
        }
      }
      assert done == torrents.Keys;
    }
  }

  // The clean-up of some of the torrents.
  function CleanSome(torrents: Torrents, hashes: set<InfoHash>, allowed: InfoHash -> bool, now: u32): Torrents
    requires hashes <= torrents.Keys
  {
    map hash | hash in hashes && allowed(hash) && Clean(torrents[hash], HTTP, now).entries != [] ::
      Clean(torrents[hash], HTTP, now)
  }

  lemma CleanOneMore(torrents: Torrents, hashes: set<InfoHash>, hash: InfoHash, allowed: InfoHash -> bool, now: u32)
    requires hashes <= torrents.Keys && hash in torrents && hash !in hashes
    ensures var some := CleanSome(torrents, hashes, allowed, now);
      var cleaned := Clean(torrents[hash], HTTP, now);
      && hash !in some
      && CleanSome(torrents, hashes + {hash}, allowed, now)
         == if allowed(hash) && cleaned.entries != [] then some[hash := cleaned] else some
  {
  }
}
