// The peers of one torrent: an array for a few of them, an index map with a
// cached seeder count for many, and what both have to do with a plain map.
module PeerMaps {
  import opened Base
  import opened Ip
  import opened PeerEntries

  // The two trackers keep the same structure with different numbers: UDP holds
  // two peers in the array and turns a map that cleaning has emptied back into
  // one, HTTP holds four and does not.
  datatype Profile = Profile(capacity: nat, shrinksWhenCleaned: bool)

  const UDP := Profile(2, true)
  const HTTP := Profile(4, false)

  datatype Event = Started | Stopped | Completed | NoEvent

  datatype Status = Seeding | Leeching | Gone

  function StatusOf(event: Event, bytesLeft: nat): Status {
    if event == Stopped then Gone else if bytesLeft == 0 then Seeding else Leeching
  }

  datatype Announcement = Announcement(
    key: PeerKey,
    peerId: nat,
    event: Event,
    bytesLeft: nat,
    validUntil: u32)
  {
    function PeerStatus(): Status {
      StatusOf(event, bytesLeft)
    }

    function NewPeer(): Peer {
      Peer(peerId, PeerStatus() == Seeding, validUntil)
    }
  }

  // ------------------------------------------------------------ the adaptive map

  datatype Peers =
    | Small(entries: seq<Entry>, completed: nat)
    | Large(entries: seq<Entry>, numSeeders: int, completed: nat)

  const NO_PEERS := Small([], 0)

  predicate IsSeeder(peer: Peer) {
    peer.isSeeder
  }

  function Seeders(entries: seq<Entry>): nat {
    Count(entries, IsSeeder)
  }

  ghost predicate Valid(p: Peers, profile: Profile) {
    && DistinctKeys(p.entries)
    && (p.Small? ==> |p.entries| <= profile.capacity)
    && (p.Large? ==> p.numSeeders == Seeders(p.entries))
  }

  function CountCompleted(p: Peers, event: Event): Peers {
    if event == Completed then p.(completed := p.completed + 1) else p
  }

  function Without(p: Peers, key: PeerKey): Peers {
    var i := IndexOfKey(p.entries, key);
    if i == |p.entries| then p
    else
      match p
      case Small(entries, completed) => Small(RemoveAt(entries, i), completed)
      case Large(entries, numSeeders, completed) =>
        Large(SwapRemoveAt(entries, i), numSeeders - (if entries[i].peer.isSeeder then 1 else 0), completed)
  }

  function TryShrink(p: Peers, capacity: nat): Peers {
    if p.Large? && |p.entries| <= capacity then Small(p.entries, p.completed) else p
  }

  function GrowIfFull(p: Peers, capacity: nat): Peers {
    if p.Small? && |p.entries| == capacity then Large(p.entries, Seeders(p.entries), p.completed) else p
  }

  function Insert(p: Peers, key: PeerKey, peer: Peer): Peers {
    match p
    case Small(entries, completed) => Small(entries + [Entry(key, peer)], completed)
    case Large(entries, numSeeders, completed) =>
      Large(entries + [Entry(key, peer)], numSeeders + (if peer.isSeeder then 1 else 0), completed)
  }

  // What follows the reply: a peer that has stopped may leave a map small enough
  // for the array, any other comes (back) in.
  function Settled(p: Peers, profile: Profile, a: Announcement): Peers {
    if a.PeerStatus() == Gone then TryShrink(p, profile.capacity)
    else Insert(GrowIfFull(p, profile.capacity), a.key, a.NewPeer())
  }

  function Announce(p: Peers, profile: Profile, a: Announcement): Peers {
    Settled(Without(CountCompleted(p, a.event), a.key), profile, a)
  }

  function Clean(p: Peers, profile: Profile, now: u32): Peers {
    var kept := Retain(p.entries, now);
    match p
    case Small(_, completed) => Small(kept, completed)
    case Large(entries, numSeeders, completed) =>
      var cleaned := Large(kept, numSeeders - (Seeders(entries) - Seeders(kept)), completed);
      if profile.shrinksWhenCleaned then TryShrink(cleaned, profile.capacity) else cleaned
  }

  // ------------------------------------------------------------ the plain map

  datatype Plain = Plain(table: PeerTable, completed: nat)

  function Abs(p: Peers): Plain {
    Plain(ToTable(p.entries), p.completed)
  }

  function PlainAnnounce(plain: Plain, a: Announcement): Plain {
    Plain(
      if a.PeerStatus() == Gone then plain.table - {a.key} else plain.table[a.key := a.NewPeer()],
      plain.completed + if a.event == Completed then 1 else 0)
  }

  function PlainClean(plain: Plain, now: u32): Plain {
    plain.(table := Unexpired(plain.table, now))
  }

  lemma WithoutRefines(p: Peers, profile: Profile, key: PeerKey)
    requires Valid(p, profile)
    ensures var after := Without(p, key);
      && Valid(after, profile)
      && after.Small? == p.Small?
      && Abs(after) == Plain(ToTable(p.entries) - {key}, p.completed)
      && !HasKey(after.entries, key)
  {
    var i := IndexOfKey(p.entries, key);
    TableAt(p.entries, key);
    if i < |p.entries| {
      var after := Without(p, key);
      DistinctIsPairwise(p.entries);
      RemoveAtRemoves(p.entries, i);
      SwapRemoveRemoves(p.entries, i);
      RemovalTable(p.entries, i, after.entries);
      TableAt(after.entries, key);
      CountIsWhere(p.entries, IsSeeder);
      CountIsWhere(after.entries, IsSeeder);
      WhereRemove(ToTable(p.entries), key, IsSeeder);
    } else {
      assert ToTable(p.entries) - {key} == ToTable(p.entries);
    }
  }

  lemma AppendSeeders(entries: seq<Entry>, e: Entry)
    ensures Seeders(entries + [e]) == Seeders(entries) + if e.peer.isSeeder then 1 else 0
  {
    assert (entries + [e])[..|entries|] == entries;
  }

  lemma InsertRefines(p: Peers, profile: Profile, key: PeerKey, peer: Peer)
    requires Valid(p, profile) && !HasKey(p.entries, key)
    requires p.Small? ==> |p.entries| < profile.capacity
    ensures Valid(Insert(p, key, peer), profile)
    ensures Abs(Insert(p, key, peer)) == Plain(ToTable(p.entries)[key := peer], p.completed)
  {
    AppendTable(p.entries, key, peer);
    AppendSeeders(p.entries, Entry(key, peer));
  }

  lemma JoinRefines(p: Peers, profile: Profile, key: PeerKey, peer: Peer)
    requires Valid(p, profile) && !HasKey(p.entries, key) && profile.capacity > 0
    ensures var joined := Insert(GrowIfFull(p, profile.capacity), key, peer);
      Valid(joined, profile) && Abs(joined) == Plain(ToTable(p.entries)[key := peer], p.completed)
  {
    InsertRefines(GrowIfFull(p, profile.capacity), profile, key, peer);
  }

  lemma PlainAnnounceStores(plain: Plain, a: Announcement)
    ensures var after := PlainAnnounce(plain, a);
      && (if a.event == Stopped then a.key !in after.table
          else a.key in after.table && after.table[a.key] == Peer(a.peerId, a.bytesLeft == 0, a.validUntil))
      && after.completed == plain.completed + if a.event == Completed then 1 else 0
  {
  }

  // An announcement does to the adaptive map what it does to a plain one: the
  // peer is gone if it has stopped, and otherwise stored as it says it is, a
  // seeder exactly if nothing is left to it.
  lemma AnnounceRefines(p: Peers, profile: Profile, a: Announcement)
    requires Valid(p, profile) && profile.capacity > 0
    ensures Valid(Announce(p, profile, a), profile)
    ensures Abs(Announce(p, profile, a)) == PlainAnnounce(Abs(p), a)
    ensures var after := Abs(Announce(p, profile, a));
      && (if a.event == Stopped then a.key !in after.table
          else a.key in after.table && after.table[a.key] == Peer(a.peerId, a.bytesLeft == 0, a.validUntil))
      && after.completed == p.completed + if a.event == Completed then 1 else 0
  {
    var counted := CountCompleted(p, a.event);
    WithoutRefines(counted, profile, a.key);
    PlainAnnounceStores(Abs(p), a);
    if a.PeerStatus() != Gone {
      JoinRefines(Without(counted, a.key), profile, a.key, a.NewPeer());
      ReplaceKey(ToTable(p.entries), a.key, a.NewPeer());
    }
  }

  lemma ReplaceKey(table: PeerTable, key: PeerKey, peer: Peer)
    ensures (table - {key})[key := peer] == table[key := peer]
  {
  }

  lemma CleanRefines(p: Peers, profile: Profile, now: u32)
    requires Valid(p, profile)
    ensures Valid(Clean(p, profile, now), profile)
    ensures Abs(Clean(p, profile, now)) == PlainClean(Abs(p), now)
  {
    RetainKeeps(p.entries, now);
    RetainTable(p.entries, now);
    RetainLength(p.entries, now);
  }

  // A clean-up keeps a peer exactly if its time is not up, and as it is.
  lemma CleanKeepsValid(p: Peers, profile: Profile, now: u32, key: PeerKey)
    requires Valid(p, profile)
    ensures var before, after := Abs(p), Abs(Clean(p, profile, now));
      && (key in after.table <==> key in before.table && before.table[key].validUntil > now)
      && (key in after.table ==> after.table[key] == before.table[key])
      && after.completed == before.completed
  {
    CleanRefines(p, profile, now);
  }

  lemma {:induction false} RetainLength(entries: seq<Entry>, now: u32)
    ensures |Retain(entries, now)| <= |entries|
  {
    if entries != [] {
      RetainLength(entries[1..], now);
    }
  }

  // ------------------------------------------------------------ replies

  datatype Counts = Counts(seeders: nat, leechers: nat)

  // What a reply and a scrape report.
  function Report(p: Peers): Counts
    requires p.Large? ==> 0 <= p.numSeeders <= |p.entries|
    requires p.Small? ==> Seeders(p.entries) <= |p.entries|
  {
    var seeders := if p.Small? then Seeders(p.entries) else p.numSeeders;
    Counts(seeders, |p.entries| - seeders)
  }

  function TrueCounts(table: PeerTable): Counts
  {
    SubsetSize(Where(table, IsSeeder), table.Keys);
    Counts(|Where(table, IsSeeder)|, |table| - |Where(table, IsSeeder)|)
  }

  // The numbers of keys whose peer is a seeder, and of the others.
  ghost predicate CountsOf(counts: Counts, table: PeerTable) {
    && counts.seeders == |set key | key in table && table[key].isSeeder|
    && counts.leechers == |set key | key in table && !table[key].isSeeder|
  }

  lemma TrueCountsCount(table: PeerTable)
    ensures CountsOf(TrueCounts(table), table)
  {
    var leechers := set key | key in table && !table[key].isSeeder;
    assert Where(table, IsSeeder) == set key | key in table && table[key].isSeeder;
    assert leechers == table.Keys - Where(table, IsSeeder);
    RestSize(Where(table, IsSeeder), table.Keys);
  }

  lemma RestSize(part: set<PeerKey>, all: set<PeerKey>)
    requires part <= all
    ensures |all - part| == |all| - |part|
  {
    assert all == part + (all - part);
  }

  lemma ReportIsDefined(p: Peers, profile: Profile)
    requires Valid(p, profile)
    ensures Seeders(p.entries) <= |p.entries|
    ensures p.Large? ==> 0 <= p.numSeeders <= |p.entries|
  {
    CountIsWhere(p.entries, IsSeeder);
    TableSize(p.entries);
    SubsetSize(Where(ToTable(p.entries), IsSeeder), ToTable(p.entries).Keys);
  }

  // The reported numbers are the true ones, cached or counted, and computing
  // them never subtracts more than there is.
  lemma ReportIsTrue(p: Peers, profile: Profile)
    requires Valid(p, profile)
    ensures Seeders(p.entries) <= |p.entries|
    ensures p.Large? ==> 0 <= p.numSeeders <= |p.entries|
    ensures Report(p) == TrueCounts(ToTable(p.entries)) && CountsOf(Report(p), ToTable(p.entries))
  {
    ReportIsDefined(p, profile);
    CountIsWhere(p.entries, IsSeeder);
    TableSize(p.entries);
    TrueCountsCount(ToTable(p.entries));
  }

  // ------------------------------------------------------------ sampling

  function Keys(entries: seq<Entry>): (keys: seq<PeerKey>)
    ensures |keys| == |entries|
    ensures forall i :: 0 <= i < |keys| ==> keys[i] == entries[i].key
  {
    seq(|entries|, i requires 0 <= i < |entries| => entries[i].key)
  }

  // Both offsets are drawn from 0 up to what the subtraction leaves.
  predicate OffsetsOk(len: nat, limit: nat, offsetOne: nat, offsetTwo: nat) {
    limit < len ==>
      && offsetOne <= len / 2 - (limit + 1) / 2
      && (limit / 2 > 0 ==> offsetTwo <= len - len / 2 - limit / 2)
  }

  // A run of keys out of each half of the map.
  function Sample(entries: seq<Entry>, limit: nat, offsetOne: nat, offsetTwo: nat): seq<PeerKey>
    requires OffsetsOk(|entries|, limit, offsetOne, offsetTwo)
  {
    var keys := Keys(entries);
    if |entries| <= limit then keys
    else
      var middle := |entries| / 2;
      var endOne := offsetOne + (limit + 1) / 2;
      keys[offsetOne..endOne] +
      if limit / 2 > 0 then keys[middle + offsetTwo..middle + offsetTwo + limit / 2] else []
  }

  // Distinct keys of entries, as many as asked for or as there are.
  ghost predicate IsSample(sample: seq<PeerKey>, entries: seq<Entry>, limit: nat) {
    && |sample| == Min(|entries|, limit)
    && NoDuplicates(sample)
    && forall key <- sample :: HasKey(entries, key)
  }

  // The entry a position of the sample comes from.
  function Source(len: nat, limit: nat, offsetOne: nat, offsetTwo: nat, i: nat): nat {
    if len <= limit then i
    else if i < (limit + 1) / 2 then offsetOne + i
    else len / 2 + offsetTwo + (i - (limit + 1) / 2)
  }

  // For every length, limit and pair of offsets the draw may yield, the
  // subtractions stay non-negative and the slices lie in disjoint halves.
  lemma SlicesFit(len: nat, limit: nat, offsetOne: nat, offsetTwo: nat)
    requires OffsetsOk(len, limit, offsetOne, offsetTwo) && limit < len
    ensures (limit + 1) / 2 <= len / 2
    ensures limit / 2 <= len - len / 2
    ensures offsetOne + (limit + 1) / 2 <= len / 2
    ensures limit / 2 > 0 ==> len / 2 + offsetTwo + limit / 2 <= len
    ensures (limit + 1) / 2 + limit / 2 == limit
  {
  }

  lemma SampleSource(entries: seq<Entry>, limit: nat, offsetOne: nat, offsetTwo: nat, i: nat)
    requires OffsetsOk(|entries|, limit, offsetOne, offsetTwo) && i < Min(|entries|, limit)
    ensures var sample := Sample(entries, limit, offsetOne, offsetTwo);
      var source := Source(|entries|, limit, offsetOne, offsetTwo, i);
      && |sample| == Min(|entries|, limit)
      && source < |entries|
      && sample[i] == entries[source].key
  {
    if limit < |entries| {
      SlicesFit(|entries|, limit, offsetOne, offsetTwo);
    }
  }

  lemma SourceAscends(len: nat, limit: nat, offsetOne: nat, offsetTwo: nat, i: nat, j: nat)
    requires OffsetsOk(len, limit, offsetOne, offsetTwo) && i < j < Min(len, limit)
    ensures Source(len, limit, offsetOne, offsetTwo, i) < Source(len, limit, offsetOne, offsetTwo, j)
  {
  }

  // The reply holds min(length, limit) distinct stored keys.
  lemma SampleIsExact(entries: seq<Entry>, limit: nat, offsetOne: nat, offsetTwo: nat)
    requires Pairwise(entries) && OffsetsOk(|entries|, limit, offsetOne, offsetTwo)
    ensures IsSample(Sample(entries, limit, offsetOne, offsetTwo), entries, limit)
  {
    var sample := Sample(entries, limit, offsetOne, offsetTwo);
    var len := |entries|;
    if limit < len {
      SlicesFit(len, limit, offsetOne, offsetTwo);
    }
    assert |sample| == Min(len, limit);
    forall i, j | 0 <= i < j < |sample|
      ensures sample[i] != sample[j]
    {
      SampleSource(entries, limit, offsetOne, offsetTwo, i);
      SampleSource(entries, limit, offsetOne, offsetTwo, j);
      SourceAscends(len, limit, offsetOne, offsetTwo, i, j);
    }
    SampleIsStored(entries, limit, offsetOne, offsetTwo);
  }

  lemma SampleIsStored(entries: seq<Entry>, limit: nat, offsetOne: nat, offsetTwo: nat)
    requires OffsetsOk(|entries|, limit, offsetOne, offsetTwo)
    requires |Sample(entries, limit, offsetOne, offsetTwo)| == Min(|entries|, limit)
    ensures forall key <- Sample(entries, limit, offsetOne, offsetTwo) :: HasKey(entries, key)
  {
  }

  // ------------------------------------------------------------ statistics messages

  datatype Message = PeerAdded(id: nat) | PeerRemoved(id: nat)

  // `known` says whether the announcing peer was in the map.
  function AnnounceMessages(known: bool, a: Announcement): seq<Message> {
    if a.PeerStatus() == Gone
    then if known then [PeerRemoved(a.peerId)] else []
    else if known then [] else [PeerAdded(a.peerId)]
  }

  function CleanMessages(entries: seq<Entry>, now: u32): seq<Message> {
    if entries == [] then []
    else
      var n := |entries| - 1;
      CleanMessages(entries[..n], now) +
      if IsValid(entries[n].peer, now) then [] else [PeerRemoved(entries[n].peer.peerId)]
  }

  // ------------------------------------------------------------ the map in place

  datatype Reply = Reply(counts: Counts, peers: seq<PeerKey>)

  // A reply made out of a plain map: the true counts, and distinct peers of it,
  // as many as asked for or as there are.
  ghost predicate IsReply(reply: Reply, table: PeerTable, limit: nat) {
    && CountsOf(reply.counts, table)
    && |reply.peers| == Min(|table|, limit)
    && NoDuplicates(reply.peers)
    && forall key <- reply.peers :: key in table
  }

  class PeerMap {
    const profile: Profile
    const peerClients: bool
    var large: bool
    var entries: seq<Entry>
    var numSeeders: nat
    var completed: nat
    // What went to the statistics worker.
    var sent: seq<Message>

    constructor (profile: Profile, peerClients: bool)
      requires profile.capacity > 0
      ensures Ok() && Value() == NO_PEERS && sent == []
      ensures this.profile == profile && this.peerClients == peerClients
    {
      this.profile, this.peerClients := profile, peerClients;
      large, entries, numSeeders, completed, sent := false, [], 0, 0, [];
    }

    // A map read back from the value it is stored as.
    constructor Of(p: Peers, profile: Profile, peerClients: bool)
      requires profile.capacity > 0 && Valid(p, profile)
      ensures Ok() && Value() == p && sent == []
      ensures this.profile == profile && this.peerClients == peerClients
    {
      ReportIsDefined(p, profile);
      this.profile, this.peerClients := profile, peerClients;
      large, entries, completed, sent := p.Large?, p.entries, p.completed, [];
      numSeeders := if p.Large? then p.numSeeders else 0;
    }

    function Value(): Peers
      reads this
    {
      if large then Large(entries, numSeeders, completed) else Small(entries, completed)
    }

    ghost predicate Ok()
      reads this
    {
      profile.capacity > 0 && Valid(Value(), profile)
    }

    method CountSeeders() returns (n: nat)
      ensures n == Seeders(entries)
    {
      n := 0;
      for i := 0 to |entries|
        invariant n == Seeders(entries[..i])
      {
        CountNext(entries, i, IsSeeder);
        if entries[i].peer.isSeeder {
          n := n + 1;
        }
      }
      assert entries[..|entries|] == entries;
    }

    method FindKey(key: PeerKey) returns (i: nat)
      ensures i == IndexOfKey(entries, key)
    {
      i := 0;
      while i < |entries| && entries[i].key != key
        invariant i <= IndexOfKey(entries, key)
      {
        i := i + 1;
      }
    }

    // `remove` of the array, `swap_remove` of the index map.
    method RemovePeer(key: PeerKey) returns (removed: bool)
      requires Ok()
      modifies this`entries, this`numSeeders
      ensures Ok() && Value() == Without(old(Value()), key)
      ensures ToTable(entries) == old(ToTable(entries)) - {key}
      ensures removed == (key in old(ToTable(entries)))
    {
      TableAt(entries, key);
      WithoutRefines(Value(), profile, key);
      removed := RemoveFound(key);
    }

    method RemoveFound(key: PeerKey) returns (removed: bool)
      requires Ok()
      modifies this`entries, this`numSeeders
      ensures Value() == Without(old(Value()), key)
      ensures removed == HasKey(old(entries), key)
    {
      var i := FindKey(key);
      removed := i < |entries|;
      if removed {
        if large && entries[i].peer.isSeeder {
          SeederIsCounted(entries, i);
          numSeeders := numSeeders - 1;
        }
        entries := if large then SwapRemoveAt(entries, i) else RemoveAt(entries, i);
      }
    }

    method ReportCounts() returns (counts: Counts)
      requires Ok()
      ensures counts == TrueCounts(ToTable(entries)) && CountsOf(counts, ToTable(entries))
    {
      ReportIsDefined(Value(), profile);
      ReportIsTrue(Value(), profile);
      var seeders: nat;
      if large {
        seeders := numSeeders;
      } else {
        seeders := CountSeeders();
      }
      counts := Counts(seeders, |entries| - seeders);
    }

    // Any offsets the random generator may draw.
    method ExtractResponsePeers(limit: nat) returns (peers: seq<PeerKey>)
      requires Ok()
      ensures IsSample(peers, entries, limit)
    {
      DistinctIsPairwise(entries);
      if !large {
        peers := Keys(entries)[..Min(limit, |entries|)];
        forall key | key in peers
          ensures HasKey(entries, key)
        {
          var i :| 0 <= i < |peers| && peers[i] == key;
          HasKeyIs(entries, key);
          assert entries[i] in entries;
        }
      } else if |entries| <= limit {
        peers := Keys(entries);
        SampleIsExact(entries, limit, 0, 0);
      } else {
        var offsetOne: nat :| offsetOne <= |entries| / 2 - (limit + 1) / 2;
        var offsetTwo: nat :| offsetTwo <= |entries| - |entries| / 2 - limit / 2;
        peers := Sample(entries, limit, offsetOne, offsetTwo);
        SampleIsExact(entries, limit, offsetOne, offsetTwo);
      }
    }

    // `PeerMap::announce`: the reply is made while the announcing peer is out of
    // the map, so it neither counts it nor returns it.
    method AnnouncePeer(a: Announcement, limit: nat) returns (reply: Reply, replaced: bool)
      requires Ok()
      modifies this
      ensures Ok() && Value() == Announce(old(Value()), profile, a)
      ensures Abs(Value()) == PlainAnnounce(old(Abs(Value())), a)
      ensures IsReply(reply, old(ToTable(entries)) - {a.key}, limit)
      ensures replaced == (a.key in old(ToTable(entries)))
      ensures sent == old(sent) + if peerClients then AnnounceMessages(replaced, a) else []
    {
      AnnounceRefines(Value(), profile, a);
      reply, replaced := AnnounceSteps(a, limit);
    }

    method CountEvent(event: Event)
      requires Ok()
      modifies this`completed
      ensures Ok() && Value() == CountCompleted(old(Value()), event)
    {
      if event == Completed {
        completed := completed + 1;
      }
    }

    method Depart(a: Announcement) returns (replaced: bool)
      requires Ok()
      modifies this`entries, this`numSeeders, this`completed
      ensures Ok() && Value() == Without(CountCompleted(old(Value()), a.event), a.key)
      ensures ToTable(entries) == old(ToTable(entries)) - {a.key}
      ensures replaced == (a.key in old(ToTable(entries)))
    {
      CountEvent(a.event);
      replaced := RemovePeer(a.key);
    }

    method AnnounceSteps(a: Announcement, limit: nat) returns (reply: Reply, replaced: bool)
      requires Ok()
      modifies this
      ensures Value() == Announce(old(Value()), profile, a)
      ensures IsReply(reply, old(ToTable(entries)) - {a.key}, limit)
      ensures replaced == (a.key in old(ToTable(entries)))
      ensures sent == old(sent) + if peerClients then AnnounceMessages(replaced, a) else []
    {
      ghost var others := ToTable(entries) - {a.key};
      replaced := Depart(a);
      reply := MakeReply(limit, others);
      Settle(a, replaced);
    }

    method Settle(a: Announcement, replaced: bool)
      requires Ok()
      modifies this
      ensures Value() == Settled(old(Value()), profile, a)
      ensures sent == old(sent) + if peerClients then AnnounceMessages(replaced, a) else []
    {
      if a.PeerStatus() == Gone {
        if large && |entries| <= profile.capacity {
          large := false;
        }
        if peerClients && replaced {
          sent := sent + [PeerRemoved(a.peerId)];
        }
      } else {
        Join(a.key, a.NewPeer());
        if peerClients && !replaced {
          sent := sent + [PeerAdded(a.peerId)];
        }
      }
    }

    method Join(key: PeerKey, peer: Peer)
      requires Ok()
      modifies this`large, this`entries, this`numSeeders
      ensures Value() == Insert(GrowIfFull(old(Value()), profile.capacity), key, peer)
    {
      if !large && |entries| == profile.capacity {
        var seeders := CountSeeders();
        numSeeders, large := seeders, true;
      }
      if large && peer.isSeeder {
        numSeeders := numSeeders + 1;
      }
      entries := entries + [Entry(key, peer)];
    }

    method MakeReply(limit: nat, ghost others: PeerTable) returns (reply: Reply)
      requires Ok() && ToTable(entries) == others
      ensures IsReply(reply, others, limit)
    {
      var counts := ReportCounts();
      var peers := ExtractResponsePeers(limit);
      TableSize(entries);
      forall key | key in peers
        ensures key in ToTable(entries)
      {
        TableAt(entries, key);
      }
      reply := Reply(counts, peers);
    }

    // `clean_and_get_num_peers`, and for UDP the shrinking after it.
    method CleanPeers(now: u32) returns (numPeers: nat)
      requires Ok()
      modifies this
      ensures Ok() && Value() == Clean(old(Value()), profile, now)
      ensures Abs(Value()) == PlainClean(old(Abs(Value())), now)
      ensures numPeers == |entries| == |ToTable(entries)|
      ensures sent == old(sent) + if peerClients then CleanMessages(old(entries), now) else []
    {
      CleanRefines(Value(), profile, now);
      RetainValid(now);
      if large && profile.shrinksWhenCleaned && |entries| <= profile.capacity {
        large := false;
      }
      numPeers := |entries|;
      TableSize(entries);
    }

    // `retain`, with what its closure does to the counter and the messages.
    method RetainValid(now: u32)
      requires Ok()
      modifies this`entries, this`numSeeders, this`sent
      ensures entries == Retain(old(entries), now)
      ensures large ==> numSeeders == Seeders(Retain(old(entries), now))
      ensures !large ==> numSeeders == old(numSeeders)
      ensures sent == old(sent) + if peerClients then CleanMessages(old(entries), now) else []
    {
      var kept, messages := [], [];
      assert entries[..|entries|] == entries;
      for i := 0 to |entries|
        invariant entries == old(entries) && sent == old(sent)
        invariant kept == Retain(entries[..i], now)
        invariant large ==> numSeeders == Seeders(entries) - Seeders(entries[..i]) + Seeders(kept)
        invariant !large ==> numSeeders == old(numSeeders)
        invariant messages == CleanMessages(entries[..i], now)
      {
        RetainNext(entries, i, now);
        CleanMessagesNext(entries, i, now);
        if IsValid(entries[i].peer, now) {
          kept := kept + [entries[i]];
        } else {
          if large && entries[i].peer.isSeeder {
            numSeeders := numSeeders - 1;
          }
          messages := messages + [PeerRemoved(entries[i].peer.peerId)];
        }
      }
      entries := kept;
      if peerClients {
        sent := sent + messages;
      }
    }
  }

  lemma CleanMessagesNext(entries: seq<Entry>, i: nat, now: u32)
    requires i < |entries|
    ensures CleanMessages(entries[..i + 1], now) == CleanMessages(entries[..i], now) +
      if IsValid(entries[i].peer, now) then [] else [PeerRemoved(entries[i].peer.peerId)]
  {
    assert entries[..i + 1][..i] == entries[..i];
  }

  lemma SeederIsCounted(entries: seq<Entry>, i: nat)
    requires i < |entries| && entries[i].peer.isSeeder
    ensures Seeders(entries) > 0
  {
    CountNext(entries, i, IsSeeder);
    CountPrefix(entries, i + 1, IsSeeder);
  }

  // One entry further in a clean-up.
  lemma RetainNext(entries: seq<Entry>, i: nat, now: u32)
    requires i < |entries|
    ensures var e := entries[i];
      var kept, keptNext := Retain(entries[..i], now), Retain(entries[..i + 1], now);
      && keptNext == kept + (if IsValid(e.peer, now) then [e] else [])
      && Seeders(keptNext) == Seeders(kept) + (if IsValid(e.peer, now) && e.peer.isSeeder then 1 else 0)
      && Seeders(entries[..i + 1]) == Seeders(entries[..i]) + (if e.peer.isSeeder then 1 else 0)
      && Seeders(entries[..i + 1]) <= Seeders(entries)
  {
    assert entries[..i + 1] == entries[..i] + [entries[i]];
    RetainAppend(entries[..i], entries[i], now);
    CountNext(entries, i, IsSeeder);
    CountPrefix(entries, i + 1, IsSeeder);
    var kept := Retain(entries[..i], now);
    var keptNext := Retain(entries[..i + 1], now);
    if IsValid(entries[i].peer, now) {
      CountNext(keptNext, |kept|, IsSeeder);
      assert keptNext[..|kept| + 1] == keptNext && keptNext[..|kept|] == kept;
    } else {
      assert keptNext == kept;
    }
  }

  lemma {:induction false} CountPrefix(entries: seq<Entry>, i: nat, p: Peer -> bool)
    requires i <= |entries|
    ensures Count(entries[..i], p) <= Count(entries, p)
    decreases |entries| - i
  {
    if i < |entries| {
      CountNext(entries, i, p);
      CountPrefix(entries, i + 1, p);
    } else {
      assert entries[..i] == entries;
    }
  }
}
