// Whole lives of one torrent's peer map: it stays a plain map, and the messages
// it sends add up to the peers it holds.
module PeerRuns {
  import opened Base
  import opened Ip
  import opened PeerEntries
  import opened PeerMaps

  datatype PeerOp = DoAnnounce(a: Announcement) | DoClean(now: u32)

  function Apply(p: Peers, profile: Profile, op: PeerOp): Peers {
    match op
    case DoAnnounce(a) => Announce(p, profile, a)
    case DoClean(now) => Clean(p, profile, now)
  }

  function PlainApply(plain: Plain, op: PeerOp): Plain {
    match op
    case DoAnnounce(a) => PlainAnnounce(plain, a)
    case DoClean(now) => PlainClean(plain, now)
  }

  function Run(p: Peers, profile: Profile, ops: seq<PeerOp>): Peers
    decreases |ops|
  {
    if ops == [] then p else Run(Apply(p, profile, ops[0]), profile, ops[1..])
  }

  function PlainRun(plain: Plain, ops: seq<PeerOp>): Plain
    decreases |ops|
  {
    if ops == [] then plain else PlainRun(PlainApply(plain, ops[0]), ops[1..])
  }

  lemma StepRefines(p: Peers, profile: Profile, op: PeerOp)
    requires Valid(p, profile) && profile.capacity > 0
    ensures Valid(Apply(p, profile, op), profile)
    ensures Abs(Apply(p, profile, op)) == PlainApply(Abs(p), op)
  {
    match op
    case DoAnnounce(a) => AnnounceRefines(p, profile, a);
    case DoClean(now) => CleanRefines(p, profile, now);
  }

  // Growing, shrinking and swap-removal are invisible: any sequence of
  // announcements and clean-ups leaves exactly the plain map it should, the array
  // never overflows and the cached counter is always the real one.
  lemma {:induction false} RunRefines(p: Peers, profile: Profile, ops: seq<PeerOp>)
    requires Valid(p, profile) && profile.capacity > 0
    ensures Valid(Run(p, profile, ops), profile)
    ensures Abs(Run(p, profile, ops)) == PlainRun(Abs(p), ops)
    decreases |ops|
  {
    if ops != [] {
      StepRefines(p, profile, ops[0]);
      RunRefines(Apply(p, profile, ops[0]), profile, ops[1..]);
    }
  }

  // In the UDP tracker the form of a map follows its size: two peers or fewer are
  // an array, more are not.
  predicate FormIsSize(p: Peers) {
    p.Small? <==> |p.entries| <= 2
  }

  lemma StepForm(p: Peers, op: PeerOp)
    requires Valid(p, UDP) && FormIsSize(p)
    ensures FormIsSize(Apply(p, UDP, op))
  {
    match op
    case DoClean(now) => RetainLength(p.entries, now);
    case DoAnnounce(a) =>
      WithoutSize(CountCompleted(p, a.event), a.key);
      SettledForm(Without(CountCompleted(p, a.event), a.key), a);
  }

  lemma SettledForm(p: Peers, a: Announcement)
    requires if p.Small? then |p.entries| <= 2 else |p.entries| >= 2
    ensures FormIsSize(Settled(p, UDP, a))
  {
  }

  lemma WithoutSize(p: Peers, key: PeerKey)
    ensures |p.entries| - 1 <= |Without(p, key).entries| <= |p.entries|
    ensures Without(p, key).Small? == p.Small?
  {
  }

  lemma {:induction false} RunForm(p: Peers, ops: seq<PeerOp>)
    requires Valid(p, UDP) && FormIsSize(p)
    ensures FormIsSize(Run(p, UDP, ops))
    decreases |ops|
  {
    if ops != [] {
      StepForm(p, ops[0]);
      StepRefines(p, UDP, ops[0]);
      RunForm(Apply(p, UDP, ops[0]), ops[1..]);
    }
  }

  // ------------------------------------------------------------ messages

  function Messages(p: Peers, op: PeerOp): seq<Message> {
    match op
    case DoAnnounce(a) => AnnounceMessages(HasKey(p.entries, a.key), a)
    case DoClean(now) => CleanMessages(p.entries, now)
  }

  function RunMessages(p: Peers, profile: Profile, ops: seq<PeerOp>): seq<Message>
    decreases |ops|
  {
    if ops == [] then []
    else Messages(p, ops[0]) + RunMessages(Apply(p, profile, ops[0]), profile, ops[1..])
  }

  // Added minus Removed.
  function Net(messages: seq<Message>): int {
    if messages == [] then 0
    else
      var n := |messages| - 1;
      Net(messages[..n]) + if messages[n].PeerAdded? then 1 else -1
  }

  lemma {:induction false} NetConcat(a: seq<Message>, b: seq<Message>)
    ensures Net(a + b) == Net(a) + Net(b)
    decreases |b|
  {
    if b == [] {
      assert a + b == a;
    } else {
      var n := |b| - 1;
      assert (a + b)[..|a| + n] == a + b[..n];
      NetConcat(a, b[..n]);
    }
  }

  lemma NetOne(m: Message)
    ensures Net([m]) == if m.PeerAdded? then 1 else -1
  {
    assert [m][..0] == [];
  }

  lemma {:induction false} CleanNet(entries: seq<Entry>, now: u32)
    ensures |Retain(entries, now)| == |entries| + Net(CleanMessages(entries, now))
    decreases |entries|
  {
    if entries != [] {
      var n := |entries| - 1;
      var e := entries[n];
      CleanNet(entries[..n], now);
      assert entries == entries[..n] + [e];
      RetainAppend(entries[..n], e, now);
      var before := CleanMessages(entries[..n], now);
      if IsValid(e.peer, now) {
        assert before + [] == before;
      } else {
        NetConcat(before, [PeerRemoved(e.peer.peerId)]);
        NetOne(PeerRemoved(e.peer.peerId));
      }
    }
  }

  lemma TableSizes(table: PeerTable, key: PeerKey, peer: Peer)
    ensures |table - {key}| == |table| - if key in table then 1 else 0
    ensures |table[key := peer]| == |table| + if key in table then 0 else 1
  {
  }

  lemma StepNet(p: Peers, profile: Profile, op: PeerOp)
    requires Valid(p, profile) && profile.capacity > 0
    ensures |Apply(p, profile, op).entries| == |p.entries| + Net(Messages(p, op))
  {
    match op
    case DoClean(now) => CleanNet(p.entries, now);
    case DoAnnounce(a) =>
      AnnounceRefines(p, profile, a);
      TableSize(p.entries);
      TableSize(Announce(p, profile, a).entries);
      TableSizes(ToTable(p.entries), a.key, a.NewPeer());
      TableAt(p.entries, a.key);
      NetOne(PeerAdded(a.peerId));
      NetOne(PeerRemoved(a.peerId));
  }

  // With peer statistics on, the messages a map has sent always net out to the
  // number of peers in it.
  lemma {:induction false} MessagesBalance(p: Peers, profile: Profile, ops: seq<PeerOp>)
    requires Valid(p, profile) && profile.capacity > 0
    ensures |Run(p, profile, ops).entries| == |p.entries| + Net(RunMessages(p, profile, ops))
    decreases |ops|
  {
    if ops != [] {
      var next := Apply(p, profile, ops[0]);
      StepNet(p, profile, ops[0]);
      StepRefines(p, profile, ops[0]);
      MessagesBalance(next, profile, ops[1..]);
      NetConcat(Messages(p, ops[0]), RunMessages(next, profile, ops[1..]));
    }
  }

  // ------------------------------------------------------------ messages by peer id

  function HasId(id: nat): Peer -> bool {
    (peer: Peer) => peer.peerId == id
  }

  // How many peers of a plain map go by a peer id.
  function IdCount(table: PeerTable, id: nat): nat {
    |Where(table, HasId(id))|
  }

  // What one announcement's messages say happened to a peer id.
  function Claimed(messages: seq<Message>, id: nat): int {
    if messages == [] || messages[0].id != id then 0 else if messages[0].PeerAdded? then 1 else -1
  }

  lemma IdCountReplace(table: PeerTable, key: PeerKey, peer: Peer, id: nat)
    requires key in table
    ensures IdCount(table - {key}, id) == IdCount(table, id) - if table[key].peerId == id then 1 else 0
    ensures IdCount(table[key := peer], id)
      == IdCount(table, id) - (if table[key].peerId == id then 1 else 0) + (if peer.peerId == id then 1 else 0)
  {
    WhereRemove(table, key, HasId(id));
    WhereInsert(table - {key}, key, peer, HasId(id));
    ReplaceKey(table, key, peer);
  }

  // The messages name the peer id of the announcement, not the one that is
  // stored. Per id they are right exactly when the two agree: an announcement
  // that reuses the address and port of a known peer under another id leaves the
  // statistics of both ids wrong.
  lemma IdMessagesAreRight(plain: Plain, a: Announcement)
    ensures var messages := AnnounceMessages(a.key in plain.table, a);
      (forall id :: IdCount(PlainAnnounce(plain, a).table, id) == IdCount(plain.table, id) + Claimed(messages, id))
      <==> (a.key in plain.table ==> plain.table[a.key].peerId == a.peerId)
  {
    var table := plain.table;
    var after := PlainAnnounce(plain, a).table;
    var messages := AnnounceMessages(a.key in table, a);
    if a.key in table {
      forall id: nat
        ensures IdCount(after, id) - IdCount(table, id) - Claimed(messages, id)
          == (if a.peerId == id then 1 else 0) - (if table[a.key].peerId == id then 1 else 0)
      {
        IdCountReplace(table, a.key, a.NewPeer(), id);
      }
      if table[a.key].peerId != a.peerId {
        assert IdCount(after, a.peerId) != IdCount(table, a.peerId) + Claimed(messages, a.peerId);
      }
    } else {
      forall id: nat
        ensures IdCount(after, id) == IdCount(table, id) + Claimed(messages, id)
      {
        WhereInsert(table, a.key, a.NewPeer(), HasId(id));
        assert table - {a.key} == table;
      }
    }
  }
}
