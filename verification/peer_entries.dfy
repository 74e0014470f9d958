// Peers in the order a map keeps them: array vectors and index maps seen as
// sequences of entries with distinct keys.
module PeerEntries {
  import opened Base
  import opened Ip

  datatype PeerKey = PeerKey(ip: IpAddr, port: u16)

  // `valid_until` in seconds since the server started.
  datatype Peer = Peer(peerId: nat, isSeeder: bool, validUntil: u32)

  datatype Entry = Entry(key: PeerKey, peer: Peer)

  type PeerTable = map<PeerKey, Peer>

  // Index of the entry with a key, or the number of entries.
  function IndexOfKey(entries: seq<Entry>, key: PeerKey): (i: nat)
    ensures i <= |entries|
    ensures i < |entries| ==> entries[i].key == key
    ensures forall k :: 0 <= k < i ==> entries[k].key != key
  {
    if entries == [] || entries[0].key == key then 0 else 1 + IndexOfKey(entries[1..], key)
  }

  predicate HasKey(entries: seq<Entry>, key: PeerKey) {
    IndexOfKey(entries, key) < |entries|
  }

  // No key occurs twice. Defined entry by entry, like the plain map below;
  // DistinctIsPairwise gives the usual reading.
  predicate DistinctKeys(entries: seq<Entry>) {
    entries == [] ||
    var n := |entries| - 1;
    DistinctKeys(entries[..n]) && !HasKey(entries[..n], entries[n].key)
  }

  ghost predicate Pairwise(entries: seq<Entry>) {
    forall i, j :: 0 <= i < j < |entries| ==> entries[i].key != entries[j].key
  }

  lemma {:induction false} DistinctIsPairwise(entries: seq<Entry>)
    ensures DistinctKeys(entries) <==> Pairwise(entries)
    decreases |entries|
  {
    if entries != [] {
      var n := |entries| - 1;
      var front := entries[..n];
      DistinctIsPairwise(front);
      assert forall i :: 0 <= i < n ==> front[i] == entries[i];
      if HasKey(front, entries[n].key) {
        var i := IndexOfKey(front, entries[n].key);
        assert entries[i].key == entries[n].key;
      } else {
        assert forall i :: 0 <= i < n ==> front[i].key != entries[n].key;
      }
    }
  }

  // The plain map the entries stand for.
  function ToTable(entries: seq<Entry>): PeerTable {
    if entries == [] then map[]
    else
      var n := |entries| - 1;
      ToTable(entries[..n])[entries[n].key := entries[n].peer]
  }

  ghost predicate Represents(entries: seq<Entry>, table: PeerTable) {
    && (forall e <- entries :: e.key in table && table[e.key] == e.peer)
    && (forall key <- table :: HasKey(entries, key))
  }

  lemma {:induction false} TableRepresents(entries: seq<Entry>)
    requires DistinctKeys(entries)
    ensures Represents(entries, ToTable(entries))
    decreases |entries|
  {
    if entries != [] {
      var n := |entries| - 1;
      var front := entries[..n];
      TableRepresents(front);
      forall e | e in entries
        ensures e.key in ToTable(entries) && ToTable(entries)[e.key] == e.peer
      {
        if e in front {
          HasKeyIs(front, entries[n].key);
        } else {
          assert e == entries[n];
        }
      }
      forall key | key in ToTable(entries)
        ensures HasKey(entries, key)
      {
        HasKeyIs(entries, key);
        if key == entries[n].key {
          assert entries[n] in entries;
        } else {
          assert entries[IndexOfKey(front, key)] == front[IndexOfKey(front, key)];
        }
      }
    }
  }

  lemma RepresentsUnique(entries: seq<Entry>, table: PeerTable)
    requires DistinctKeys(entries) && Represents(entries, table)
    ensures table == ToTable(entries)
  {
    TableRepresents(entries);
    forall key
      ensures key in table <==> key in ToTable(entries)
      ensures key in table ==> table[key] == ToTable(entries)[key]
    {
      if key in table || key in ToTable(entries) {
        var e := entries[IndexOfKey(entries, key)];
        assert e in entries;
      }
    }
  }

  lemma TableAt(entries: seq<Entry>, key: PeerKey)
    requires DistinctKeys(entries)
    ensures key in ToTable(entries) <==> HasKey(entries, key)
    ensures HasKey(entries, key) ==> ToTable(entries)[key] == entries[IndexOfKey(entries, key)].peer
  {
    TableRepresents(entries);
    if HasKey(entries, key) {
      assert entries[IndexOfKey(entries, key)] in entries;
    }
  }

  lemma HasKeyIs(entries: seq<Entry>, key: PeerKey)
    ensures HasKey(entries, key) <==> exists e <- entries :: e.key == key
  {
  }

  // ------------------------------------------------------------ counting

  function Count(entries: seq<Entry>, p: Peer -> bool): nat {
    if entries == [] then 0
    else
      var n := |entries| - 1;
      Count(entries[..n], p) + if p(entries[n].peer) then 1 else 0
  }

  lemma CountNext(entries: seq<Entry>, i: nat, p: Peer -> bool)
    requires i < |entries|
    ensures Count(entries[..i + 1], p) == Count(entries[..i], p) + if p(entries[i].peer) then 1 else 0
  {
    assert entries[..i + 1][..i] == entries[..i];
  }

  // ------------------------------------------------------------ removal

  // ArrayVec::remove: what follows moves up.
  function RemoveAt(entries: seq<Entry>, i: nat): seq<Entry>
    requires i < |entries|
  {
    entries[..i] + entries[i + 1..]
  }

  // IndexMap::swap_remove: the last entry takes the place.
  function SwapRemoveAt(entries: seq<Entry>, i: nat): seq<Entry>
    requires i < |entries|
  {
    var last := |entries| - 1;
    if i == last then entries[..last] else entries[..i] + [entries[last]] + entries[i + 1..last]
  }

  // Either way the entry at i is gone and the others are there, once each.
  ghost predicate RemovesEntry(entries: seq<Entry>, i: nat, after: seq<Entry>)
    requires i < |entries|
  {
    && |after| == |entries| - 1
    && Pairwise(after)
    && (forall e <- after :: e in entries && e.key != entries[i].key)
    && (forall e <- entries :: e.key != entries[i].key ==> e in after)
  }

  lemma RemoveAtRemoves(entries: seq<Entry>, i: nat)
    requires Pairwise(entries) && i < |entries|
    ensures RemovesEntry(entries, i, RemoveAt(entries, i))
  {
  }

  lemma SwapRemoveRemoves(entries: seq<Entry>, i: nat)
    requires Pairwise(entries) && i < |entries|
    ensures RemovesEntry(entries, i, SwapRemoveAt(entries, i))
  {
    var after := SwapRemoveAt(entries, i);
    var last := |entries| - 1;
    assert forall k :: 0 <= k < |after| ==> after[k] == entries[if k == i then last else k];
    forall e | e in entries && e.key != entries[i].key
      ensures e in after
    {
      var k :| 0 <= k < |entries| && entries[k] == e;
      assert after[if k == last then i else k] == e;
    }
  }

  lemma RemovalTable(entries: seq<Entry>, i: nat, after: seq<Entry>)
    requires DistinctKeys(entries) && i < |entries| && RemovesEntry(entries, i, after)
    ensures DistinctKeys(after)
    ensures ToTable(after) == ToTable(entries) - {entries[i].key}
  {
    DistinctIsPairwise(after);
    TableRepresents(entries);
    var table := ToTable(entries) - {entries[i].key};
    forall key | key in table
      ensures HasKey(after, key)
    {
      var e := entries[IndexOfKey(entries, key)];
      assert e in entries;
      HasKeyIs(after, key);
    }
    RepresentsUnique(after, table);
  }

  // ------------------------------------------------------------ insertion

  lemma AppendTable(entries: seq<Entry>, key: PeerKey, peer: Peer)
    requires DistinctKeys(entries) && !HasKey(entries, key)
    ensures DistinctKeys(entries + [Entry(key, peer)])
    ensures ToTable(entries + [Entry(key, peer)]) == ToTable(entries)[key := peer]
  {
    var longer := entries + [Entry(key, peer)];
    assert longer[..|entries|] == entries;
  }

  // ------------------------------------------------------------ retain

  // `ValidUntil::valid`
  predicate IsValid(peer: Peer, now: u32) {
    peer.validUntil > now
  }

  function Retain(entries: seq<Entry>, now: u32): seq<Entry> {
    if entries == [] then []
    else (if IsValid(entries[0].peer, now) then [entries[0]] else []) + Retain(entries[1..], now)
  }

  lemma {:induction false} RetainAppend(entries: seq<Entry>, e: Entry, now: u32)
    ensures Retain(entries + [e], now) == Retain(entries, now) + if IsValid(e.peer, now) then [e] else []
  {
    var longer := entries + [e];
    if entries == [] {
      assert longer[1..] == [];
    } else {
      assert longer[0] == entries[0];
      assert longer[1..] == entries[1..] + [e];
      RetainAppend(entries[1..], e, now);
      var first := if IsValid(entries[0].peer, now) then [entries[0]] else [];
      var last := if IsValid(e.peer, now) then [e] else [];
      assert first + (Retain(entries[1..], now) + last) == (first + Retain(entries[1..], now)) + last;
    }
  }

  lemma {:induction false} RetainKeeps(entries: seq<Entry>, now: u32)
    ensures forall e :: e in Retain(entries, now) <==> e in entries && IsValid(e.peer, now)
    ensures Pairwise(entries) ==> Pairwise(Retain(entries, now))
  {
    if entries != [] {
      RetainKeeps(entries[1..], now);
      if Pairwise(entries) {
        assert forall e <- Retain(entries[1..], now) :: e in entries[1..] && e.key != entries[0].key;
      }
    }
  }

  // The plain map without the peers whose time is up.
  function Unexpired(table: PeerTable, now: u32): PeerTable {
    map key | key in table && IsValid(table[key], now) :: table[key]
  }

  lemma RetainTable(entries: seq<Entry>, now: u32)
    requires DistinctKeys(entries)
    ensures DistinctKeys(Retain(entries, now))
    ensures ToTable(Retain(entries, now)) == Unexpired(ToTable(entries), now)
  {
    TableRepresents(entries);
    RetainKeeps(entries, now);
    DistinctIsPairwise(entries);
    DistinctIsPairwise(Retain(entries, now));
    var kept := Retain(entries, now);
    var table := Unexpired(ToTable(entries), now);
    forall key | key in table
      ensures HasKey(kept, key)
    {
      assert entries[IndexOfKey(entries, key)] in entries;
      HasKeyIs(kept, key);
    }
    RepresentsUnique(kept, table);
  }

  // ------------------------------------------------------------ table facts

  lemma SplitLast(entries: seq<Entry>)
    requires DistinctKeys(entries) && entries != []
    ensures entries[|entries| - 1].key !in ToTable(entries[..|entries| - 1])
  {
    TableAt(entries[..|entries| - 1], entries[|entries| - 1].key);
  }

  lemma InsertSize(table: PeerTable, key: PeerKey, peer: Peer)
    requires key !in table
    ensures |table[key := peer]| == |table| + 1
  {
    assert table[key := peer].Keys == table.Keys + {key};
  }

  lemma {:induction false} TableSize(entries: seq<Entry>)
    requires DistinctKeys(entries)
    ensures |ToTable(entries)| == |entries|
    decreases |entries|
  {
    if entries != [] {
      var n := |entries| - 1;
      SplitLast(entries);
      TableSize(entries[..n]);
      InsertSize(ToTable(entries[..n]), entries[n].key, entries[n].peer);
    }
  }

  // The keys of a plain map whose peer satisfies a test.
  function Where(table: PeerTable, p: Peer -> bool): set<PeerKey> {
    set key | key in table && p(table[key])
  }

  lemma WhereInsert(table: PeerTable, key: PeerKey, peer: Peer, p: Peer -> bool)
    requires key !in table
    ensures |Where(table[key := peer], p)| == |Where(table, p)| + if p(peer) then 1 else 0
  {
    assert Where(table[key := peer], p) == Where(table, p) + if p(peer) then {key} else {};
    assert key !in Where(table, p);
  }

  lemma WhereRemove(table: PeerTable, key: PeerKey, p: Peer -> bool)
    requires key in table
    ensures |Where(table, p)| == |Where(table - {key}, p)| + if p(table[key]) then 1 else 0
  {
    assert Where(table, p) == Where(table - {key}, p) + if p(table[key]) then {key} else {};
    assert key !in Where(table - {key}, p);
  }

  // Counting entries counts the plain map.
  lemma {:induction false} CountIsWhere(entries: seq<Entry>, p: Peer -> bool)
    requires DistinctKeys(entries)
    ensures Count(entries, p) == |Where(ToTable(entries), p)|
    decreases |entries|
  {
    if entries == [] {
      assert Where(ToTable(entries), p) == {};
    } else {
      var n := |entries| - 1;
      SplitLast(entries);
      CountIsWhere(entries[..n], p);
      WhereInsert(ToTable(entries[..n]), entries[n].key, entries[n].peer, p);
    }
  }
}
