// Whom the loaded list bans: what it held at first and what the hand-off wrote.
// A torn write can add a stranger, because a piece of an address may be one too.
module HandoffStrangers {
  import opened Base
  import opened Text
  import opened Ip
  import opened Policy
  import opened Tracker
  import opened BanList
  import opened Handoff
  import opened HandoffSafety

  // ------------------------------------------------------------ entry by entry

  // The peers one entry bans on its own.
  predicate EntryBans(entry: string, peer: IpAddr, text: IpText) {
    IsBanned(AddOrSkip(NO_BANS, entry, text), peer)
  }

  lemma AddIsUnion(list: BanSet, entry: string, peer: IpAddr, text: IpText)
    requires list.Valid()
    ensures IsBanned(AddOrSkip(list, entry, text), peer) <==> IsBanned(list, peer) || EntryBans(entry, peer, text)
  {
    var added, alone := AddOrSkip(list, entry, text), AddOrSkip(NO_BANS, entry, text);
    assert forall r :: r in added.ranges <==> r in list.ranges || r in alone.ranges;
    assert forall ip :: ip in added.ips <==> ip in list.ips || ip in alone.ips;
  }

  lemma {:induction false} LoadIsUnion(list: BanSet, entries: seq<string>, peer: IpAddr, text: IpText)
    requires list.Valid()
    ensures IsBanned(LoadEntries(list, entries, text), peer) <==>
      IsBanned(list, peer) || exists e <- entries :: EntryBans(e, peer, text)
    decreases |entries|
  {
    if entries != [] {
      AddIsUnion(list, entries[0], peer, text);
      LoadIsUnion(AddOrSkip(list, entries[0], text), entries[1..], peer, text);
      assert forall e :: e in entries <==> e == entries[0] || e in entries[1..];
    }
  }

  lemma {:induction false} EntriesAreLines(lines: seq<string>, entry: string)
    ensures entry in EntriesOf(lines) <==> entry != "" && exists line <- lines :: Entry(line) == entry
  {
    if lines != [] {
      EntriesAreLines(lines[1..], entry);
      assert forall line :: line in lines <==> line == lines[0] || line in lines[1..];
    }
  }

  // ------------------------------------------------------------ what an append adds

  // A line the hand-off can leave behind: the first part of a printed address, all
  // of it unless the write was torn.
  ghost predicate Printed(line: string, ips: set<IpAddr>, whole: bool, text: IpText) {
    exists ip <- ips :: line <= text.show(ip) && (whole ==> line == text.show(ip))
  }

  lemma {:induction false} TornLines(order: seq<IpAddr>, kept: nat, text: IpText)
    requires text.Lawful() && kept <= |LinesFor(order, text)|
    ensures forall line <- Lines(LinesFor(order, text)[..kept]) ::
      Printed(line, SetOf(order), kept == |LinesFor(order, text)|, text)
    decreases |order|
  {
    if kept > 0 {
      var all, shown, rest := LinesFor(order, text), text.show(order[0]), LinesFor(order[1..], text);
      PrintedIsPlain(text, order[0]);
      assert order[0] in SetOf(order);
      if kept <= |shown| {
        assert all[..kept] == shown[..kept];
        LinesOfPlain(shown[..kept]);
      } else {
        var n := kept - |shown| - 1;
        assert all[..kept] == (shown + "\n") + rest[..n];
        TornLines(order[1..], n, text);
        FirstWhole(shown, rest[..n]);
        forall line | line in Lines(rest[..n])
          ensures Printed(line, SetOf(order), kept == |all|, text)
        {
          PrintedGrows(line, SetOf(order[1..]), SetOf(order), n == |rest|, text);
        }
      }
    }
  }

  lemma FirstWhole(first: string, more: string)
    requires '\n' !in first
    ensures Lines((first + "\n") + more) == [first] + Lines(more)
  {
    LinesSingle(first);
    LinesConcat(first + "\n", more);
  }

  lemma LinesOfPlain(s: string)
    requires s != "" && '\n' !in s
    ensures Lines(s) == [s]
  {
    IndexOfIs(s, '\n', |s|);
  }

  lemma PieceIsEntry(piece: string, ip: IpAddr, text: IpText)
    requires text.Lawful() && piece <= text.show(ip)
    ensures Entry(piece) == piece && '/' !in piece
  {
    PrintedIsPlain(text, ip);
    assert forall c <- piece :: c in text.show(ip);
    IndexOfIs(piece, '#', |piece|);
    assert piece[..|piece|] == piece;
    if piece != "" {
      assert piece[0] in piece && piece[|piece| - 1] in piece;
      TrimNoSpaceEnds(piece);
    }
  }

  lemma ReadyLines(content: string)
    ensures EndsWithNewline(content + "\n")
    ensures forall line <- Lines(content + "\n") :: line in Lines(content) || line == ""
  {
    if EndsWithNewline(content) {
      LinesConcat(content, "\n");
      LinesSingle("");
      assert "" + "\n" == "\n";
    } else {
      LinesTerminate(content);
    }
  }

  // The text of an append reaches the file after the newline that may have to come
  // first, and up to some place.
  lemma AppendedText(content: string, order: seq<IpAddr>, fate: Fate, text: IpText) returns (lead: string, n: nat)
    ensures n <= |LinesFor(order, text)| && (fate.Written? ==> n == |LinesFor(order, text)|)
    ensures var after := AfterAppend(content, order, fate, text);
      || after == content
      || ((lead == "\n" || (lead == "" && EndsWithNewline(content)))
          && after == (content + lead) + LinesFor(order, text)[..n])
  {
    var lines := LinesFor(order, text);
    lead, n := "", |lines|;
    if !fate.OpenFailed? {
      lead := if EndsWithNewline(content) && !fate.guarded then "" else "\n";
      if fate.Written? {
        assert lines[..n] == lines;
        assert content + (lead + lines) == (content + lead) + lines;
      } else if fate.kept >= |lead| {
        n := Min(fate.kept - |lead|, |lines|);
        assert (lead + lines)[..|lead| + n] == lead + lines[..n];
        assert content + (lead + lines[..n]) == (content + lead) + lines[..n];
      } else {
        assert content + (lead + lines)[..0] == content;
      }
    }
  }

  lemma AppendedLines(content: string, order: seq<IpAddr>, fate: Fate, text: IpText)
    requires text.Lawful()
    ensures forall line <- Lines(AfterAppend(content, order, fate, text)) ::
      line in Lines(content) || line == "" || Printed(line, SetOf(order), fate.Written?, text)
  {
    var lead, n := AppendedText(content, order, fate, text);
    if AfterAppend(content, order, fate, text) != content {
      AfterLead(content, lead, LinesFor(order, text)[..n]);
      TornLines(order, n, text);
    }
  }

  lemma AfterLead(content: string, lead: string, more: string)
    requires lead == "\n" || (lead == "" && EndsWithNewline(content))
    ensures forall line <- Lines((content + lead) + more) :: line in Lines(content) || line == "" || line in Lines(more)
  {
    if lead == "" {
      assert content + lead == content;
    } else {
      ReadyLines(content);
    }
    LinesConcat(content + lead, more);
  }

  lemma AppendedEntries(content: string, order: seq<IpAddr>, fate: Fate, text: IpText)
    requires text.Lawful()
    ensures forall e <- Entries(AfterAppend(content, order, fate, text)) ::
      e in Entries(content) || Printed(e, SetOf(order), fate.Written?, text)
  {
    var after := AfterAppend(content, order, fate, text);
    AppendedLines(content, order, fate, text);
    forall e | e in Entries(after)
      ensures e in Entries(content) || Printed(e, SetOf(order), fate.Written?, text)
    {
      EntriesAreLines(Lines(after), e);
      EntriesAreLines(Lines(content), e);
      var line :| line in Lines(after) && Entry(line) == e;
      if line !in Lines(content) && line != "" {
        var ip :| ip in SetOf(order) && line <= text.show(ip) && (fate.Written? ==> line == text.show(ip));
        PieceIsEntry(line, ip, text);
      }
    }
  }

  // ------------------------------------------------------------ whom an entry bans

  // The peer is an address that was banned for good or, if writes were torn, one
  // that a first part of such an address happens to spell.
  ghost predicate Spelled(peer: IpAddr, ips: set<IpAddr>, whole: bool, text: IpText) {
    exists ip, n: nat | ip in ips && n <= |text.show(ip)| ::
      && (whole ==> n == |text.show(ip)|)
      && PieceBans(text.show(ip)[..n], peer, text)
  }

  predicate PieceBans(piece: string, peer: IpAddr, text: IpText) {
    text.parse(piece).Some? && Canonical(text.parse(piece).value) == Canonical(peer)
  }

  lemma AddressBans(piece: string, peer: IpAddr, text: IpText)
    requires '/' !in piece
    ensures EntryBans(piece, peer, text) <==> PieceBans(piece, peer, text)
  {
  }

  lemma PrintedBans(entry: string, peer: IpAddr, ips: set<IpAddr>, whole: bool, text: IpText)
    requires text.Lawful() && Printed(entry, ips, whole, text) && EntryBans(entry, peer, text)
    ensures Spelled(peer, ips, whole, text)
  {
    var ip :| ip in ips && entry <= text.show(ip) && (whole ==> entry == text.show(ip));
    PieceIsEntry(entry, ip, text);
    AddressBans(entry, peer, text);
    assert text.show(ip)[..|entry|] == entry;
  }

  // With whole lines only, a spelled peer is one of the addresses.
  lemma SpelledWhole(peer: IpAddr, ips: set<IpAddr>, text: IpText)
    requires text.Lawful() && Spelled(peer, ips, true, text)
    ensures exists ip <- ips :: Canonical(ip) == Canonical(peer)
  {
    var ip, n: nat :| ip in ips && n == |text.show(ip)| && PieceBans(text.show(ip)[..n], peer, text);
    assert text.show(ip)[..n] == text.show(ip);
  }

  // ------------------------------------------------------------ over whole runs

  predicate Tears(a: Action) {
    (a.AppendLine? && a.fate.Torn?) || (a.FlushAppend? && a.fate.Torn?)
  }

  function Ever(s: State): set<IpAddr> {
    s.ledger.episodes.Keys
  }

  // Every record that is permanent has been condemned.
  ghost predicate EverInv(s: State) {
    forall ip | IsPermanent(s.tracker, ip) :: ip in Ever(s)
  }

  // Every entry of the list file was there at first or is the hand-off's.
  ghost predicate FileInv(world: World, s: State, initial: map<string, string>, whole: bool) {
    forall e | e in Entries(Content(s.disk, world.ListFile())) ::
      e in Entries(Content(initial, world.ListFile())) || Printed(e, Ever(s), whole, world.text)
  }

  // Whom the first list bans, or the first content of the list file.
  ghost predicate AtFirst(world: World, first: State, peer: IpAddr) {
    && first.loaded.Valid()
    && (IsBanned(first.loaded, peer) || IsBanned(Load(Content(first.disk, world.ListFile()), world.text), peer))
  }

  ghost predicate ListInv(world: World, s: State, first: State, whole: bool) {
    forall peer | s.loaded.Valid() && IsBanned(s.loaded, peer) ::
      AtFirst(world, first, peer) || Spelled(peer, Ever(s), whole, world.text)
  }

  ghost predicate KnownInv(world: World, s: State, first: State, whole: bool) {
    EverInv(s) && FileInv(world, s, first.disk, whole) && ListInv(world, s, first, whole)
  }

  lemma EverViolation(world: World, s: State, w: nat, ip: IpAddr, reason: Reason, at: nat)
    requires EverInv(s)
    ensures var t := DoRecordViolation(world, s, w, ip, reason, at); EverInv(t) && Ever(s) <= Ever(t)
  {
    var t := DoRecordViolation(world, s, w, ip, reason, at);
    forall other | IsPermanent(t.tracker, other)
      ensures other in Ever(t)
    {
      if !IsPermanent(s.tracker, other) {
        NewPermanent(s.tracker, ip, reason, at, world.Settings(), other);
      }
    }
  }

  lemma EverRestart(world: World, s: State, bans: map<IpAddr, u64>, nowUnix: u64, at: nat)
    requires EverInv(s)
    ensures var t := DoRestart(world, s, bans, nowUnix, at); EverInv(t) && Ever(t) == Ever(s)
  {
    RestoredNotPermanent(bans, nowUnix, at);
  }

  // No permanent record appears out of nowhere.
  ghost predicate NoneNew(s: State, t: State) {
    && (forall ip | IsPermanent(t.tracker, ip) :: IsPermanent(s.tracker, ip))
    && t.ledger.episodes == s.ledger.episodes
  }

  lemma WorkersCondemnNone(world: World, s: State, a: Action)
    requires s.loaded.Valid() && IsWorkerAction(a) && !a.RecordViolation?
    ensures NoneNew(s, Step(world, s, a))
  {
  }

  lemma FlusherCondemnsNone(world: World, s: State, a: Action)
    requires s.loaded.Valid() && !IsWorkerAction(a) && !a.Restart?
    ensures NoneNew(s, Step(world, s, a))
  {
  }

  lemma EverOtherwise(world: World, s: State, a: Action)
    requires s.loaded.Valid() && EverInv(s) && !a.RecordViolation? && !a.Restart?
    ensures EverInv(Step(world, s, a)) && Ever(Step(world, s, a)) == Ever(s)
  {
    if IsWorkerAction(a) {
      WorkersCondemnNone(world, s, a);
    } else {
      FlusherCondemnsNone(world, s, a);
    }
  }

  // Addresses are only ever added to those condemned.
  lemma EverStep(world: World, s: State, a: Action)
    requires s.loaded.Valid() && EverInv(s)
    ensures EverInv(Step(world, s, a)) && Ever(s) <= Ever(Step(world, s, a))
  {
    match a
    case RecordViolation(w, ip, reason, at) => EverViolation(world, s, w, ip, reason, at);
    case Restart(bans, nowUnix, at) => EverRestart(world, s, bans, nowUnix, at);
    case _ => EverOtherwise(world, s, a);
  }

  lemma PrintedGrows(e: string, ips: set<IpAddr>, more: set<IpAddr>, whole: bool, text: IpText)
    requires ips <= more && Printed(e, ips, whole, text)
    ensures Printed(e, more, whole, text)
  {
  }

  lemma DiskStays(world: World, s: State, t: State, initial: map<string, string>, whole: bool)
    requires FileInv(world, s, initial, whole) && Ever(s) <= Ever(t)
    requires Content(t.disk, world.ListFile()) == Content(s.disk, world.ListFile())
    ensures FileInv(world, t, initial, whole)
  {
  }

  lemma DiskAppended(
      world: World, s: State, t: State, order: seq<IpAddr>, fate: Fate, initial: map<string, string>, whole: bool)
    requires world.text.Lawful() && FileInv(world, s, initial, whole)
    requires t.disk == DiskAfter(world, s.disk, order, fate) && Ever(t) == Ever(s) && SetOf(order) <= Ever(s)
    requires whole ==> !fate.Torn?
    ensures FileInv(world, t, initial, whole)
  {
    var file := world.ListFile();
    forall e | e in Entries(Content(t.disk, file))
      ensures e in Entries(Content(initial, file)) || Printed(e, Ever(t), whole, world.text)
    {
      if file == world.BanFile() && !fate.OpenFailed? {
        AppendedEntries(Content(s.disk, file), order, fate, world.text);
        if e !in Entries(Content(s.disk, file)) {
          PrintedGrows(e, SetOf(order), Ever(t), fate.Written?, world.text);
        }
      }
    }
  }

  lemma FileAppendLine(world: World, s: State, w: nat, fate: Fate, initial: map<string, string>, whole: bool)
    requires Inv(world, s) && world.text.Lawful() && EverInv(s) && FileInv(world, s, initial, whole)
    requires whole ==> !fate.Torn?
    ensures FileInv(world, DoAppendLine(world, s, w, fate), initial, whole)
  {
    var t := DoAppendLine(world, s, w, fate);
    if w < |s.workers| && s.workers[w].Appending? {
      assert WorkerOk(world, s, w);
      DiskAppended(world, s, t, [s.workers[w].ip], fate, initial, whole);
    }
  }

  lemma FileFlushAppend(
      world: World, s: State, order: seq<IpAddr>, fate: Fate, initial: map<string, string>, whole: bool)
    requires Inv(world, s) && world.text.Lawful() && EverInv(s) && FileInv(world, s, initial, whole)
    requires whole ==> !fate.Torn?
    ensures FileInv(world, DoFlushAppend(world, s, order, fate), initial, whole)
  {
    var t := DoFlushAppend(world, s, order, fate);
    if s.flusher.Writing? && Handoff.Lists(order, s.flusher.pending) {
      DiskAppended(world, s, t, order, fate, initial, whole);
    }
  }

  lemma FileStep(world: World, s: State, a: Action, initial: map<string, string>, whole: bool)
    requires Inv(world, s) && Trusted(world) && EverInv(s) && FileInv(world, s, initial, whole)
    requires whole ==> !Tears(a)
    ensures FileInv(world, Step(world, s, a), initial, whole)
  {
    if a.AppendLine? {
      FileAppendLine(world, s, a.w, a.fate, initial, whole);
    } else if a.FlushAppend? {
      FileFlushAppend(world, s, a.order, a.fate, initial, whole);
    } else {
      FileOtherwise(world, s, a, initial, whole);
    }
  }

  lemma FileOtherwise(world: World, s: State, a: Action, initial: map<string, string>, whole: bool)
    requires Inv(world, s) && Trusted(world) && EverInv(s) && FileInv(world, s, initial, whole)
    requires !a.AppendLine? && !a.FlushAppend?
    ensures FileInv(world, Step(world, s, a), initial, whole)
  {
    ListFileStays(world, s, a);
    EverStep(world, s, a);
    DiskStays(world, s, Step(world, s, a), initial, whole);
  }

  // A list that is loaded now bans whom the entries of the file ban now.
  lemma LoadedNow(world: World, s: State, t: State, first: State, whole: bool, peer: IpAddr)
    requires world.text.Lawful() && FileInv(world, s, first.disk, whole) && first.loaded.Valid() && Ever(s) <= Ever(t)
    requires IsBanned(Load(Content(s.disk, world.ListFile()), world.text), peer)
    ensures AtFirst(world, first, peer) || Spelled(peer, Ever(t), whole, world.text)
  {
    var entries := Entries(Content(s.disk, world.ListFile()));
    var initially := Entries(Content(first.disk, world.ListFile()));
    LoadIsUnion(NO_BANS, entries, peer, world.text);
    LoadIsUnion(NO_BANS, initially, peer, world.text);
    var e :| e in entries && EntryBans(e, peer, world.text);
    if e !in initially {
      PrintedGrows(e, Ever(s), Ever(t), whole, world.text);
      PrintedBans(e, peer, Ever(t), whole, world.text);
    }
  }

  // What a step does to the loaded list: nothing, a load of the list file as it
  // is, or a restart with lists switched off.
  lemma ListStep(world: World, s: State, a: Action)
    requires Inv(world, s)
    ensures var t := Step(world, s, a);
      t.loaded == s.loaded || t.loaded == NO_BANS || t.loaded == Load(Content(s.disk, world.ListFile()), world.text)
  {
  }

  lemma KnownStep(world: World, s: State, a: Action, first: State, whole: bool)
    requires Inv(world, s) && Trusted(world) && KnownInv(world, s, first, whole) && first.loaded.Valid()
    requires whole ==> !Tears(a)
    ensures KnownInv(world, Step(world, s, a), first, whole)
  {
    var t := Step(world, s, a);
    EverStep(world, s, a);
    FileStep(world, s, a, first.disk, whole);
    ListStep(world, s, a);
    forall peer | t.loaded.Valid() && IsBanned(t.loaded, peer)
      ensures AtFirst(world, first, peer) || Spelled(peer, Ever(t), whole, world.text)
    {
      if t.loaded == Load(Content(s.disk, world.ListFile()), world.text) {
        LoadedNow(world, s, t, first, whole, peer);
      } else {
        assert IsBanned(s.loaded, peer);
        assert AtFirst(world, first, peer) || Spelled(peer, Ever(s), whole, world.text);
      }
    }
  }

  lemma {:induction false} KnownRun(world: World, states: seq<State>, actions: seq<Action>, k: nat, whole: bool)
    requires Trusted(world) && IsRun(world, states, actions) && Initial(world, states[0])
    requires k < |states| && (whole ==> forall a <- actions :: !Tears(a))
    ensures KnownInv(world, states[k], states[0], whole)
  {
    if k > 0 {
      KnownRun(world, states, actions, k - 1, whole);
      RunInv(world, states, actions, k - 1);
      KnownStep(world, states[k - 1], actions[k - 1], states[0], whole);
    }
  }

  // No strangers. In every run without torn writes of the hand-off, whatever else
  // fails, the loaded list bans a peer only if it did at first, or the list file
  // did, or the peer has the canonical address of one that was banned for good.
  lemma NoStrangers(world: World, states: seq<State>, actions: seq<Action>, k: nat, peer: IpAddr)
    requires Trusted(world) && IsRun(world, states, actions) && Initial(world, states[0])
    requires k < |states| && forall a <- actions :: !Tears(a)
    requires states[k].loaded.Valid() && IsBanned(states[k].loaded, peer)
    ensures AtFirst(world, states[0], peer) || exists ip <- Ever(states[k]) :: Canonical(ip) == Canonical(peer)
  {
    KnownRun(world, states, actions, k, true);
    if Spelled(peer, Ever(states[k]), true, world.text) {
      SpelledWhole(peer, Ever(states[k]), world.text);
    }
  }

  // With torn writes it may ban one more kind of peer: one that a first part of
  // such an address spells.
  lemma StrangersAreSpelled(world: World, states: seq<State>, actions: seq<Action>, k: nat, peer: IpAddr)
    requires Trusted(world) && IsRun(world, states, actions) && Initial(world, states[0])
    requires k < |states| && states[k].loaded.Valid() && IsBanned(states[k].loaded, peer)
    ensures AtFirst(world, states[0], peer) || Spelled(peer, Ever(states[k]), false, world.text)
  {
    KnownRun(world, states, actions, k, false);
  }

  // And it does: a write that is torn inside the address makes the file ban
  // exactly the peers it banned before and those the written part spells.
  lemma TornWriteBans(content: string, ip: IpAddr, kept: nat, peer: IpAddr, text: IpText)
    requires text.Lawful() && EndsWithNewline(content) && kept <= |text.show(ip)|
    ensures IsBanned(Load(AfterAppend(content, [ip], Torn(kept, false), text), text), peer) <==>
      IsBanned(Load(content, text), peer) || (kept > 0 && PieceBans(text.show(ip)[..kept], peer, text))
  {
    var piece := text.show(ip)[..kept];
    var after := AfterAppend(content, [ip], Torn(kept, false), text);
    assert LinesFor([ip], text) == text.show(ip) + "\n" + "";
    assert after == content + piece;
    LinesConcat(content, piece);
    PieceIsEntry(piece, ip, text);
    PrintedIsPlain(text, ip);
    if kept > 0 {
      LinesOfPlain(piece);
    }
    LoadIsUnion(NO_BANS, Entries(after), peer, text);
    LoadIsUnion(NO_BANS, Entries(content), peer, text);
    AddressBans(piece, peer, text);
    forall e
      ensures e in Entries(after) <==> e in Entries(content) || (kept > 0 && e == piece)
    {
      EntriesAreLines(Lines(after), e);
      EntriesAreLines(Lines(content), e);
    }
  }
}
