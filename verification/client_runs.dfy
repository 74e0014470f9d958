// The client-ban file over time: bans are appended under the write lock, while
// compaction reads the file, prepares its successor and renames it into place
// without that lock. A ban that is appended in between is renamed away.
module ClientRuns {
  import opened Base
  import opened Text
  import opened Ip
  import opened Tracker
  import opened ClientBans

  // The file, and what a compaction under way is going to replace it with.
  datatype FileState = FileState(content: string, successor: Option<string>)

  // Abandon stands for a crash, and for a compaction that cannot write or rename.
  datatype FileOp =
    | Append(ip: IpAddr, expire: u64)
    | Read(now: u64)
    | Replace
    | Abandon

  ghost function Apply(f: FileState, op: FileOp, text: IpText): FileState {
    match op
    case Append(ip, expire) => f.(content := AppendBan(f.content, ip, expire, text))
    case Read(now) => if f.successor.None? then f.(successor := Some(Compact(f.content, now, text))) else f
    case Replace => if f.successor.Some? then FileState(f.successor.value, None) else f
    case Abandon => f.(successor := None)
  }

  ghost function Run(f: FileState, ops: seq<FileOp>, text: IpText): FileState
    decreases |ops|
  {
    if ops == [] then f else Run(Apply(f, ops[0], text), ops[1..], text)
  }

  // ------------------------------------------------------------ when an append survives

  // Whether a compaction is under way after an operation, and after several.
  predicate UnderWayAfter(before: bool, op: FileOp) {
    if op.Append? then before else op.Read?
  }

  predicate UnderWay(before: bool, ops: seq<FileOp>)
    decreases |ops|
  {
    if ops == [] then before else UnderWay(UnderWayAfter(before, ops[0]), ops[1..])
  }

  // Whether a compaction that is under way now will replace the file.
  predicate WillReplace(ops: seq<FileOp>)
    decreases |ops|
  {
    ops != [] && (ops[0].Replace? || (!ops[0].Abandon? && WillReplace(ops[1..])))
  }

  predicate Tells(op: FileOp, ip: IpAddr, expire: u64) {
    op.Append? && op.ip == ip && op.expire >= expire
  }

  // Some append tells of the ban, or of a later end, outside the window between
  // the reading and the replacing of a compaction.
  predicate SomeSurvives(underWay: bool, ops: seq<FileOp>, ip: IpAddr, expire: u64)
    decreases |ops|
  {
    ops != [] && (
      || (Tells(ops[0], ip, expire) && !(underWay && WillReplace(ops[1..])))
      || SomeSurvives(UnderWayAfter(underWay, ops[0]), ops[1..], ip, expire))
  }

  // Every compaction reads its clock before this time.
  predicate Before(ops: seq<FileOp>, expire: u64) {
    forall op <- ops :: op.Read? ==> op.now < expire
  }

  // The file gives the address a ban that ends then or later.
  predicate Holds(content: string, ip: IpAddr, expire: u64, text: IpText) {
    var latest := Latest(Lines(content), ip, text);
    latest.Some? && latest.value >= expire
  }

  lemma AppendHolds(content: string, who: IpAddr, when: u64, ip: IpAddr, expire: u64, text: IpText)
    requires text.Lawful()
    ensures Holds(AppendBan(content, who, when, text), ip, expire, text) <==>
      Holds(content, ip, expire, text) || (who == ip && when >= expire)
  {
    var line := BanLine(who, when, text);
    LinesAfterAppend(content, who, when, text);
    BanLineReads(who, when, text);
    LatestConcat(Lines(content), [line], ip, text);
    assert Latest([line], ip, text) == Says(line, ip, text);
  }

  lemma CompactHolds(content: string, now: u64, ip: IpAddr, expire: u64, text: IpText)
    requires text.Lawful() && now < expire
    ensures Holds(Compact(content, now, text), ip, expire, text) <==> Holds(content, ip, expire, text)
  {
    LatestOfCompact(content, now, ip, text);
    ParseIsLatest(content, now, ip, text);
  }

  // What the successor under way holds.
  predicate SuccessorHolds(f: FileState, ip: IpAddr, expire: u64, text: IpText) {
    f.successor.Some? && Holds(f.successor.value, ip, expire, text)
  }

  lemma StepHolds(f: FileState, op: FileOp, ip: IpAddr, expire: u64, text: IpText)
    requires text.Lawful() && (op.Read? ==> op.now < expire)
    ensures var g := Apply(f, op, text);
      var has, will := Holds(f.content, ip, expire, text), SuccessorHolds(f, ip, expire, text);
      && g.successor.Some? == UnderWayAfter(f.successor.Some?, op)
      && Holds(g.content, ip, expire, text) ==
           (if op.Append? then has || Tells(op, ip, expire)
            else if op.Replace? && f.successor.Some? then will else has)
      && SuccessorHolds(g, ip, expire, text) ==
           (if op.Append? || (op.Read? && f.successor.Some?) then will else op.Read? && has)
  {
    match op
    case Append(who, when) => AppendHolds(f.content, who, when, ip, expire, text);
    case Read(now) => CompactHolds(f.content, now, ip, expire, text);
    case _ =>
  }

  // What the end of a run holds: what it started from, or rather the successor if
  // that is going to replace it, and whatever survives.
  lemma {:induction false} RunHolds(f: FileState, ops: seq<FileOp>, ip: IpAddr, expire: u64, text: IpText)
    requires text.Lawful() && Before(ops, expire)
    ensures Holds(Run(f, ops, text).content, ip, expire, text) <==>
      || (if f.successor.Some? && WillReplace(ops) then SuccessorHolds(f, ip, expire, text)
          else Holds(f.content, ip, expire, text))
      || SomeSurvives(f.successor.Some?, ops, ip, expire)
    decreases |ops|
  {
    if ops != [] {
      var op, rest := ops[0], ops[1..];
      assert op in ops && forall other <- rest :: other in ops;
      StepHolds(f, op, ip, expire, text);
      RunHolds(Apply(f, op, text), rest, ip, expire, text);
    }
  }

  // ------------------------------------------------------------ one ban

  // Nothing else tells of the ban.
  predicate NoOther(ops: seq<FileOp>, ip: IpAddr, expire: u64) {
    forall op <- ops :: !Tells(op, ip, expire)
  }

  lemma {:induction false} NoneSurvives(underWay: bool, ops: seq<FileOp>, ip: IpAddr, expire: u64)
    requires NoOther(ops, ip, expire)
    ensures !SomeSurvives(underWay, ops, ip, expire)
    decreases |ops|
  {
    if ops != [] {
      assert ops[0] in ops && forall other <- ops[1..] :: other in ops;
      NoneSurvives(UnderWayAfter(underWay, ops[0]), ops[1..], ip, expire);
    }
  }

  lemma {:induction false} OnlyThisSurvives(
      underWay: bool, before: seq<FileOp>, ip: IpAddr, expire: u64, after: seq<FileOp>)
    requires NoOther(before, ip, expire) && NoOther(after, ip, expire)
    ensures SomeSurvives(underWay, before + [Append(ip, expire)] + after, ip, expire) <==>
      !(UnderWay(underWay, before) && WillReplace(after))
    decreases |before|
  {
    var ops := before + [Append(ip, expire)] + after;
    if before == [] {
      assert ops[0] == Append(ip, expire) && ops[1..] == after;
      NoneSurvives(underWay, after, ip, expire);
    } else {
      assert before[0] in before && forall other <- before[1..] :: other in before;
      assert ops[0] == before[0] && ops[1..] == before[1..] + [Append(ip, expire)] + after;
      OnlyThisSurvives(UnderWayAfter(underWay, before[0]), before[1..], ip, expire, after);
    }
  }

  // A client ban that is appended once is missing from the file in the end if and
  // only if its append fell between the reading and the replacing of a compaction.
  lemma BanIsMissing(
      content: string, before: seq<FileOp>, ip: IpAddr, expire: u64, after: seq<FileOp>, text: IpText)
    requires text.Lawful() && !Holds(content, ip, expire, text)
    requires NoOther(before, ip, expire) && NoOther(after, ip, expire)
    requires Before(before, expire) && Before(after, expire)
    ensures var ops := before + [Append(ip, expire)] + after;
      !Holds(Run(FileState(content, None), ops, text).content, ip, expire, text) <==>
        UnderWay(false, before) && WillReplace(after)
  {
    RunHolds(FileState(content, None), before + [Append(ip, expire)] + after, ip, expire, text);
    OnlyThisSurvives(false, before, ip, expire, after);
  }

  // Appending it again helps, unless that falls into such a window as well: a ban
  // is in the file in the end as soon as any append of it, or of a later end,
  // survives.
  lemma AnySurvivorKeeps(content: string, ops: seq<FileOp>, ip: IpAddr, expire: u64, text: IpText)
    requires text.Lawful() && Before(ops, expire)
    ensures Holds(Run(FileState(content, None), ops, text).content, ip, expire, text) <==>
      Holds(content, ip, expire, text) || SomeSurvives(false, ops, ip, expire)
  {
    RunHolds(FileState(content, None), ops, ip, expire, text);
  }

  // ------------------------------------------------------------ restarts

  lemma {:induction false} ThisSurvives(
      underWay: bool, before: seq<FileOp>, ip: IpAddr, expire: u64, after: seq<FileOp>)
    requires !(UnderWay(underWay, before) && WillReplace(after))
    ensures SomeSurvives(underWay, before + [Append(ip, expire)] + after, ip, expire)
    decreases |before|
  {
    var ops := before + [Append(ip, expire)] + after;
    if before == [] {
      assert ops[0] == Append(ip, expire) && ops[1..] == after;
    } else {
      assert ops[0] == before[0] && ops[1..] == before[1..] + [Append(ip, expire)] + after;
      ThisSurvives(UnderWayAfter(underWay, before[0]), before[1..], ip, expire, after);
    }
  }

  // In a run that appends the ban, outside such a window, and nothing that ends
  // later for its address, the file gives the address exactly this end.
  lemma LatestInRun(
      content: string, before: seq<FileOp>, ip: IpAddr, expire: u64, after: seq<FileOp>, text: IpText)
    requires text.Lawful() && expire < U64_MAX
    requires !(UnderWay(false, before) && WillReplace(after))
    requires Before(before, expire) && Before(after, expire)
    requires !Holds(content, ip, expire + 1, text)
    requires NoOther(before, ip, expire + 1) && NoOther(after, ip, expire + 1)
    ensures var ops := before + [Append(ip, expire)] + after;
      Latest(Lines(Run(FileState(content, None), ops, text).content), ip, text) == Some(expire)
  {
    var ops := before + [Append(ip, expire)] + after;
    OpsOfRun(before, Append(ip, expire), after);
    ThisSurvives(false, before, ip, expire, after);
    AnySurvivorKeeps(content, ops, ip, expire, text);
    NothingLater(content, ops, ip, expire + 1, text);
    assert Holds(Run(FileState(content, None), ops, text).content, ip, expire, text);
  }

  lemma OpsOfRun(before: seq<FileOp>, op: FileOp, after: seq<FileOp>)
    ensures forall other <- before + [op] + after :: other in before || other == op || other in after
  {
  }

  lemma NothingLater(content: string, ops: seq<FileOp>, ip: IpAddr, expire: u64, text: IpText)
    requires text.Lawful() && Before(ops, expire) && NoOther(ops, ip, expire) && !Holds(content, ip, expire, text)
    ensures !Holds(Run(FileState(content, None), ops, text).content, ip, expire, text)
  {
    NoneSurvives(false, ops, ip, expire);
    AnySurvivorKeeps(content, ops, ip, expire, text);
  }

  // Restart fidelity. A client ban in force is written to the file, outside the
  // window of a compaction. However many bans are appended and compactions run
  // before and after, once the server starts again with an empty map the address
  // is banned again, unless the entry has expired, and the ban ends less than two
  // seconds before and less than one second after its original end. Only a line
  // that gives the address a later end could change that.
  lemma RestartKeepsBan(
      content: string, before: seq<FileOp>, after: seq<FileOp>, ip: IpAddr, until: nat,
      wall: nat, mono: nat, wall': nat, mono': nat, text: IpText)
    requires text.Lawful() && mono <= until
    requires var expire := ExpiryToWrite(wall, mono, until);
      && WholeSecs(wall') < expire < U64_MAX && Representable(expire, WholeSecs(wall'), mono')
      && !(UnderWay(false, before) && WillReplace(after))
      && Before(before, expire) && Before(after, expire)
      && !Holds(content, ip, expire + 1, text)
      && NoOther(before, ip, expire + 1) && NoOther(after, ip, expire + 1)
    ensures var expire := ExpiryToWrite(wall, mono, until);
      var file := Run(FileState(content, None), before + [Append(ip, expire)] + after, text).content;
      var st := Restore(EMPTY_TRACKER, Parse(file, WholeSecs(wall'), text), WholeSecs(wall'), mono');
      && Banned(st, ip, mono') && !st.records[ip].permanent
      && st.records[ip].bannedUntil.Some?
      && var restoredWall := wall' + (st.records[ip].bannedUntil.value - mono');
         wall + (until - mono) - 2 * Nanos(1) < restoredWall < wall + (until - mono) + Nanos(1)
  {
    var expire := ExpiryToWrite(wall, mono, until);
    var file := Run(FileState(content, None), before + [Append(ip, expire)] + after, text).content;
    LatestInRun(content, before, ip, expire, after, text);
    ParseIsLatest(file, WholeSecs(wall'), ip, text);
    var bans := Parse(file, WholeSecs(wall'), text);
    assert ip in bans && bans[ip] == expire;
    RestoredIsBanned(bans, ip, WholeSecs(wall'), mono');
    RestoredEndIsClose(wall, mono, until, wall', mono');
  }

  lemma RestoredIsBanned(bans: BanMap, ip: IpAddr, nowUnix: u64, now: nat)
    requires ip in bans && bans[ip] > nowUnix && Representable(bans[ip], nowUnix, now)
    ensures var st := Restore(EMPTY_TRACKER, bans, nowUnix, now);
      && Banned(st, ip, now) && !st.records[ip].permanent
      && st.records[ip].bannedUntil == Some(RestoredEnd(bans[ip], nowUnix, now))
  {
    assert |bans| > 0;
  }
}
