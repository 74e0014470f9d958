// Scrapes fanned out over hash-partitioned swarm workers: whatever the order of
// the replies, the answer is that of one worker owning all torrents.
module FanOut {
  import opened Base
  import opened InfoHashes
  import opened PeerEntries
  import opened PeerMaps
  import opened HttpSwarm

  // `calculate_request_consumer_index`
  function Route(hash: InfoHash, numWorkers: nat): (w: nat)
    ensures w < Max(numWorkers, 1)
  {
    hash.first % Max(numWorkers, 1)
  }

  // Every worker cleans on a timer of its own, with its own view of what is
  // allowed.
  datatype SwarmOp =
    | Announced(hash: InfoHash, a: Announcement)
    | Cleaned(worker: nat, allowed: InfoHash -> bool, now: u32)

  // The clean-up of those torrents that belong to one worker.
  function CleanShare(
      torrents: Torrents, w: nat, numWorkers: nat, allowed: InfoHash -> bool, now: u32): Torrents
  {
    map hash | hash in torrents && (Route(hash, numWorkers) == w ==>
        allowed(hash) && Clean(torrents[hash], HTTP, now).entries != []) ::
      if Route(hash, numWorkers) == w then Clean(torrents[hash], HTTP, now) else torrents[hash]
  }

  // One worker that owns all torrents, each cleaned when its owner cleans.
  function ApplyOne(torrents: Torrents, op: SwarmOp, numWorkers: nat): Torrents {
    match op
    case Announced(hash, a) => Upsert(torrents, hash, a)
    case Cleaned(w, allowed, now) => CleanShare(torrents, w, numWorkers, allowed, now)
  }

  // Announcements go to the worker their hash is routed to.
  function ApplyAll(workers: seq<Torrents>, op: SwarmOp): (after: seq<Torrents>)
    requires workers != []
    ensures |after| == |workers|
  {
    match op
    case Announced(hash, a) =>
      var w := Route(hash, |workers|);
      workers[w := Upsert(workers[w], hash, a)]
    case Cleaned(w, allowed, now) =>
      if w < |workers| then workers[w := CleanAll(workers[w], allowed, now)] else workers
  }

  function RunOne(torrents: Torrents, ops: seq<SwarmOp>, numWorkers: nat): Torrents
    decreases |ops|
  {
    if ops == [] then torrents else RunOne(ApplyOne(torrents, ops[0], numWorkers), ops[1..], numWorkers)
  }

  function RunAll(workers: seq<Torrents>, ops: seq<SwarmOp>): (after: seq<Torrents>)
    requires workers != []
    ensures |after| == |workers|
    decreases |ops|
  {
    if ops == [] then workers else RunAll(ApplyAll(workers, ops[0]), ops[1..])
  }

  // ------------------------------------------------------------ cleaning by shares

  // The workers from `w` on clean, with one view and one clock.
  function CleanFrom(w: nat, numWorkers: nat, allowed: InfoHash -> bool, now: u32): seq<SwarmOp>
    decreases numWorkers - w
  {
    if w >= numWorkers then [] else [Cleaned(w, allowed, now)] + CleanFrom(w + 1, numWorkers, allowed, now)
  }

  // What is left to do once the workers before `w` have cleaned their shares.
  function CleanRest(
      torrents: Torrents, w: nat, numWorkers: nat, allowed: InfoHash -> bool, now: u32): Torrents
  {
    map hash | hash in torrents && (Route(hash, numWorkers) >= w ==>
        allowed(hash) && Clean(torrents[hash], HTTP, now).entries != []) ::
      if Route(hash, numWorkers) >= w then Clean(torrents[hash], HTTP, now) else torrents[hash]
  }

  lemma {:induction false} CleanFromIsRest(
      torrents: Torrents, w: nat, numWorkers: nat, allowed: InfoHash -> bool, now: u32)
    requires w <= numWorkers && numWorkers > 0
    ensures RunOne(torrents, CleanFrom(w, numWorkers, allowed, now), numWorkers)
      == CleanRest(torrents, w, numWorkers, allowed, now)
    decreases numWorkers - w
  {
    if w < numWorkers {
      var ops := CleanFrom(w, numWorkers, allowed, now);
      assert ops[1..] == CleanFrom(w + 1, numWorkers, allowed, now);
      var next := CleanShare(torrents, w, numWorkers, allowed, now);
      CleanFromIsRest(next, w + 1, numWorkers, allowed, now);
      RestAfterShare(torrents, w, numWorkers, allowed, now);
    }
  }

  lemma RestAfterShare(torrents: Torrents, w: nat, numWorkers: nat, allowed: InfoHash -> bool, now: u32)
    ensures CleanRest(CleanShare(torrents, w, numWorkers, allowed, now), w + 1, numWorkers, allowed, now)
      == CleanRest(torrents, w, numWorkers, allowed, now)
  {
  }

  // When all workers clean at once, the shares add up to the clean-up of a whole
  // store.
  lemma SharesOfACleanUp(torrents: Torrents, numWorkers: nat, allowed: InfoHash -> bool, now: u32)
    requires numWorkers > 0
    ensures RunOne(torrents, CleanFrom(0, numWorkers, allowed, now), numWorkers) == CleanAll(torrents, allowed, now)
  {
    CleanFromIsRest(torrents, 0, numWorkers, allowed, now);
  }

  // ------------------------------------------------------------ shares

  function Lookup(torrents: Torrents, hash: InfoHash): Option<Peers> {
    if hash in torrents then Some(torrents[hash]) else None
  }

  // Every worker holds its share of the torrents, and only that.
  ghost predicate Shares(workers: seq<Torrents>, all: Torrents)
    requires workers != []
  {
    forall w, hash | 0 <= w < |workers| :: SharesOne(workers, all, w, hash)
  }

  ghost predicate SharesOne(workers: seq<Torrents>, all: Torrents, w: nat, hash: InfoHash)
    requires w < |workers|
  {
    Lookup(workers[w], hash) == if Route(hash, |workers|) == w then Lookup(all, hash) else None
  }

  lemma AnnouncedShares(workers: seq<Torrents>, all: Torrents, op: SwarmOp, w: nat, hash: InfoHash)
    requires w < |workers| && op.Announced?
    requires SharesOne(workers, all, w, hash)
    requires SharesOne(workers, all, Route(op.hash, |workers|), op.hash)
    ensures SharesOne(ApplyAll(workers, op), ApplyOne(all, op, |workers|), w, hash)
  {
  }

  lemma CleanedShares(workers: seq<Torrents>, all: Torrents, op: SwarmOp, w: nat, hash: InfoHash)
    requires w < |workers| && op.Cleaned? && SharesOne(workers, all, w, hash)
    ensures SharesOne(ApplyAll(workers, op), ApplyOne(all, op, |workers|), w, hash)
  {
  }

  lemma StepShares(workers: seq<Torrents>, all: Torrents, op: SwarmOp)
    requires workers != [] && Shares(workers, all)
    ensures Shares(ApplyAll(workers, op), ApplyOne(all, op, |workers|))
  {
    forall w, hash | 0 <= w < |workers|
      ensures SharesOne(ApplyAll(workers, op), ApplyOne(all, op, |workers|), w, hash)
    {
      assert SharesOne(workers, all, w, hash);
      if op.Announced? {
        assert SharesOne(workers, all, Route(op.hash, |workers|), op.hash);
        AnnouncedShares(workers, all, op, w, hash);
      } else {
        CleanedShares(workers, all, op, w, hash);
      }
    }
  }

  // Through any run of announcements and clean-ups the workers together hold what
  // a single worker would.
  lemma {:induction false} RunShares(workers: seq<Torrents>, all: Torrents, ops: seq<SwarmOp>)
    requires workers != [] && Shares(workers, all)
    ensures Shares(RunAll(workers, ops), RunOne(all, ops, |workers|))
    decreases |ops|
  {
    if ops != [] {
      StepShares(workers, all, ops[0]);
      RunShares(ApplyAll(workers, ops[0]), ApplyOne(all, ops[0], |workers|), ops[1..]);
    }
  }

  // ------------------------------------------------------------ one torrent's story

  // What announcements and clean-ups do to one torrent, as a plain map: a clean-up
  // drops it, with its counter, if it is forbidden or left without a peer.
  function StoryStep(plain: Plain, op: SwarmOp, hash: InfoHash, numWorkers: nat): Plain {
    match op
    case Announced(other, a) => if other == hash then PlainAnnounce(plain, a) else plain
    case Cleaned(w, allowed, now) =>
      var kept := map key | key in plain.table && plain.table[key].validUntil > now :: plain.table[key];
      if Route(hash, numWorkers) != w then plain
      else if allowed(hash) && kept != map[] then Plain(kept, plain.completed)
      else Plain(map[], 0)
  }

  function Story(plain: Plain, ops: seq<SwarmOp>, hash: InfoHash, numWorkers: nat): Plain
    decreases |ops|
  {
    if ops == [] then plain else Story(StoryStep(plain, ops[0], hash, numWorkers), ops[1..], hash, numWorkers)
  }

  lemma CleanedStory(torrents: Torrents, op: SwarmOp, hash: InfoHash, numWorkers: nat)
    requires op.Cleaned? && Valid(PeersOf(torrents, hash), HTTP)
    ensures var after := PeersOf(ApplyOne(torrents, op, numWorkers), hash);
      Valid(after, HTTP) && Abs(after) == StoryStep(Abs(PeersOf(torrents, hash)), op, hash, numWorkers)
  {
    var peers := PeersOf(torrents, hash);
    var cleaned := Clean(peers, HTTP, op.now);
    var table := Abs(peers).table;
    CleanRefines(peers, HTTP, op.now);
    TableSize(cleaned.entries);
    assert Unexpired(table, op.now) == map key | key in table && table[key].validUntil > op.now :: table[key];
    assert Abs(cleaned).table == map[] <==> |Abs(cleaned).table| == 0;
  }

  lemma AnnouncedStory(torrents: Torrents, op: SwarmOp, hash: InfoHash, numWorkers: nat)
    requires op.Announced? && Valid(PeersOf(torrents, hash), HTTP)
    ensures var after := PeersOf(ApplyOne(torrents, op, numWorkers), hash);
      Valid(after, HTTP) && Abs(after) == StoryStep(Abs(PeersOf(torrents, hash)), op, hash, numWorkers)
  {
    if op.hash == hash {
      AnnounceRefines(PeersOf(torrents, hash), HTTP, op.a);
    }
  }

  // Any run leaves each torrent as its own story says.
  lemma {:induction false} RunTellsStory(torrents: Torrents, ops: seq<SwarmOp>, hash: InfoHash, numWorkers: nat)
    requires Valid(PeersOf(torrents, hash), HTTP)
    ensures var after := PeersOf(RunOne(torrents, ops, numWorkers), hash);
      Abs(after) == Story(Abs(PeersOf(torrents, hash)), ops, hash, numWorkers)
    decreases |ops|
  {
    if ops != [] {
      if ops[0].Announced? {
        AnnouncedStory(torrents, ops[0], hash, numWorkers);
      } else {
        CleanedStory(torrents, ops[0], hash, numWorkers);
      }
      RunTellsStory(ApplyOne(torrents, ops[0], numWorkers), ops[1..], hash, numWorkers);
    }
  }

  const NO_PLAIN := Plain(map[], 0)

  // So a scrape of a store tells every torrent's story.
  lemma StatsTellStory(ops: seq<SwarmOp>, hash: InfoHash, numWorkers: nat)
    ensures Tells(Stats(RunOne(map[], ops, numWorkers), hash), Story(NO_PLAIN, ops, hash, numWorkers))
  {
    RunTellsStory(map[], ops, hash, numWorkers);
    StatsTell(RunOne(map[], ops, numWorkers), hash);
  }

  // ------------------------------------------------------------ splitting a request

  // The hashes of a request that are routed to a worker, in their order.
  function Part(hashes: seq<InfoHash>, w: nat, numWorkers: nat): (part: seq<InfoHash>)
    ensures |part| <= |hashes|
  {
    if hashes == [] then []
    else
      var n := |hashes| - 1;
      Part(hashes[..n], w, numWorkers) + if Route(hashes[n], numWorkers) == w then [hashes[n]] else []
  }

  type Parts = map<nat, seq<InfoHash>>

  function PartsOf(hashes: seq<InfoHash>, numWorkers: nat): Parts {
    map w: nat | w < Max(numWorkers, 1) && Part(hashes, w, numWorkers) != [] :: Part(hashes, w, numWorkers)
  }

  // The request is split by one walk over its hashes.
  method SplitByWorker(hashes: seq<InfoHash>, numWorkers: nat) returns (parts: Parts)
    ensures parts == PartsOf(hashes, numWorkers)
  {
    parts := map[];
    for i := 0 to |hashes|
      invariant parts == PartsOf(hashes[..i], numWorkers)
    {
      var hash := hashes[i];
      var w := Route(hash, numWorkers);
      PartsNext(hashes, i, numWorkers);
      parts := parts[w := (if w in parts then parts[w] else []) + [hash]];
    }
    assert hashes[..|hashes|] == hashes;
  }

  lemma PartNext(hashes: seq<InfoHash>, i: nat, w: nat, numWorkers: nat)
    requires i < |hashes|
    ensures var part := Part(hashes[..i], w, numWorkers);
      Part(hashes[..i + 1], w, numWorkers)
      == if Route(hashes[i], numWorkers) == w then part + [hashes[i]] else part
  {
    assert hashes[..i + 1][..i] == hashes[..i];
  }

  lemma PartsNext(hashes: seq<InfoHash>, i: nat, numWorkers: nat)
    requires i < |hashes|
    ensures var before := PartsOf(hashes[..i], numWorkers);
      var w := Route(hashes[i], numWorkers);
      PartsOf(hashes[..i + 1], numWorkers)
      == before[w := (if w in before then before[w] else []) + [hashes[i]]]
  {
    forall v: nat
      ensures var part := Part(hashes[..i], v, numWorkers);
        Part(hashes[..i + 1], v, numWorkers)
        == if Route(hashes[i], numWorkers) == v then part + [hashes[i]] else part
    {
      PartNext(hashes, i, v, numWorkers);
    }
  }

  // ------------------------------------------------------------ gathering the replies

  // What the workers answer.
  function Answers(workers: seq<Torrents>, parts: Parts, limit: nat): map<nat, Files>
    requires forall w <- parts :: w < |workers|
  {
    map w | w in parts :: ScrapeFiles(workers[w], parts[w], limit)
  }

  // Everything the replies say and nothing else.
  ghost predicate IsUnion(files: Files, replies: map<nat, Files>) {
    && (forall w, hash | w in replies && hash in replies[w] :: hash in files)
    && (forall hash <- files :: exists w :: w in replies && hash in replies[w] && files[hash] == replies[w][hash])
  }

  // Replies put together in the order they arrive.
  function Merge(arrivals: seq<Files>): Files {
    if arrivals == [] then map[]
    else Merge(arrivals[..|arrivals| - 1]) + arrivals[|arrivals| - 1]
  }

  function Values(arrivals: seq<Option<Files>>): (values: seq<Files>)
    requires forall reply <- arrivals :: reply.Some?
    ensures |values| == |arrivals|
  {
    seq(|arrivals|, i requires 0 <= i < |arrivals| => assert arrivals[i] in arrivals; arrivals[i].value)
  }

  // `wait_for_scrape_responses`, one reply per receiver in the order of arrival. A
  // worker that is gone, or a request without hashes, is an error.
  method WaitForScrapeResponses(arrivals: seq<Option<Files>>) returns (r: Result<Files>)
    ensures r.Ok? <==> arrivals != [] && forall reply <- arrivals :: reply.Some?
    ensures r.Ok? ==> r.value == Merge(Values(arrivals))
  {
    var pending := |arrivals|;
    var next := 0;
    var stats: Files := map[];
    while true
      invariant pending == |arrivals| - next >= 0
      invariant arrivals != [] ==> pending > 0
      invariant forall reply <- arrivals[..next] :: reply.Some?
      invariant stats == Merge(Values(arrivals[..next]))
      decreases pending
    {
      if next == |arrivals| {
        return Err;
      }
      var reply := arrivals[next];
      assert reply in arrivals;
      if reply.None? {
        return Err;
      }
      MergeNext(arrivals, next);
      stats := stats + reply.value;
      next := next + 1;
      pending := pending - 1;
      if pending == 0 {
        assert arrivals[..next] == arrivals;
        return Ok(stats);
      }
    }
  }

  lemma MergeNext(arrivals: seq<Option<Files>>, i: nat)
    requires i < |arrivals| && arrivals[i].Some?
    requires forall reply <- arrivals[..i] :: reply.Some?
    ensures forall reply <- arrivals[..i + 1] :: reply.Some?
    ensures Merge(Values(arrivals[..i + 1])) == Merge(Values(arrivals[..i])) + arrivals[i].value
  {
    assert arrivals[..i + 1] == arrivals[..i] + [arrivals[i]];
    var values := Values(arrivals[..i + 1]);
    assert values[..i] == Values(arrivals[..i]);
  }

  // The answers in some order of arrival, each worker's once.
  ghost predicate ArriveAs(arrivals: seq<Files>, order: seq<nat>, answers: map<nat, Files>) {
    && |arrivals| == |order|
    && SetOf(order) == answers.Keys
    && forall i :: 0 <= i < |order| ==> order[i] in answers && arrivals[i] == answers[order[i]]
  }

  lemma {:induction false} MergeHolds(arrivals: seq<Files>, hash: InfoHash)
    ensures hash in Merge(arrivals) <==> exists files <- arrivals :: hash in files
    ensures hash in Merge(arrivals) ==>
      exists files <- arrivals :: hash in files && Merge(arrivals)[hash] == files[hash]
    decreases |arrivals|
  {
    if arrivals != [] {
      var n := |arrivals| - 1;
      MergeHolds(arrivals[..n], hash);
      assert arrivals == arrivals[..n] + [arrivals[n]];
      assert forall files <- arrivals :: files in arrivals[..n] || files == arrivals[n];
      if hash in arrivals[n] {
        assert arrivals[n] in arrivals;
      }
    }
  }

  // Whatever the order of arrival, the merge says what the answers say.
  lemma MergeIsUnion(arrivals: seq<Files>, order: seq<nat>, answers: map<nat, Files>)
    requires ArriveAs(arrivals, order, answers)
    ensures IsUnion(Merge(arrivals), answers)
  {
    forall w, hash | w in answers && hash in answers[w]
      ensures hash in Merge(arrivals)
    {
      assert w in SetOf(order);
      var i :| 0 <= i < |order| && order[i] == w;
      assert arrivals[i] in arrivals;
      MergeHolds(arrivals, hash);
    }
    forall hash | hash in Merge(arrivals)
      ensures exists w :: w in answers && hash in answers[w] && Merge(arrivals)[hash] == answers[w][hash]
    {
      MergeHolds(arrivals, hash);
      var files :| files in arrivals && hash in files && Merge(arrivals)[hash] == files[hash];
      var i :| 0 <= i < |arrivals| && arrivals[i] == files;
      assert order[i] in answers;
    }
  }

  // ------------------------------------------------------------ one store or many

  lemma {:induction false} PartHolds(hashes: seq<InfoHash>, w: nat, numWorkers: nat, hash: InfoHash)
    ensures hash in Part(hashes, w, numWorkers) <==> hash in hashes && Route(hash, numWorkers) == w
    decreases |hashes|
  {
    if hashes != [] {
      PartHolds(hashes[..|hashes| - 1], w, numWorkers, hash);
    }
  }

  lemma {:induction false} PartPrefix(hashes: seq<InfoHash>, k: nat, w: nat, numWorkers: nat)
    requires k <= |hashes|
    ensures Part(hashes[..k], w, numWorkers) <= Part(hashes, w, numWorkers)
    decreases |hashes| - k
  {
    if k < |hashes| {
      PartNext(hashes, k, w, numWorkers);
      PartPrefix(hashes, k + 1, w, numWorkers);
    } else {
      assert hashes[..k] == hashes;
    }
  }

  function Taken(hashes: seq<InfoHash>, limit: nat): seq<InfoHash> {
    hashes[..Min(limit, |hashes|)]
  }

  // What one worker takes of a request is also taken by the worker of its part.
  lemma TakenByItsWorker(hashes: seq<InfoHash>, limit: nat, numWorkers: nat, hash: InfoHash)
    requires hash in Taken(hashes, limit)
    ensures hash in hashes
    ensures hash in Taken(Part(hashes, Route(hash, numWorkers), numWorkers), limit)
  {
    var w := Route(hash, numWorkers);
    var first := Taken(hashes, limit);
    PartHolds(first, w, numWorkers, hash);
    PartPrefix(hashes, |first|, w, numWorkers);
    var part, firstPart := Part(hashes, w, numWorkers), Part(first, w, numWorkers);
    var i :| 0 <= i < |firstPart| && firstPart[i] == hash;
    assert part[i] == hash;
    assert Taken(part, limit)[i] == hash;
  }

  lemma SharedStats(workers: seq<Torrents>, all: Torrents, hash: InfoHash)
    requires workers != [] && Shares(workers, all)
    ensures Stats(workers[Route(hash, |workers|)], hash) == Stats(all, hash)
  {
    assert SharesOne(workers, all, Route(hash, |workers|), hash);
  }

  // Every hash is answered for by its worker, and by no other.
  lemma GatheredAreOwn(workers: seq<Torrents>, hashes: seq<InfoHash>, limit: nat, files: Files, hash: InfoHash)
    requires workers != []
    requires IsUnion(files, Answers(workers, PartsOf(hashes, |workers|), limit))
    ensures hash in files <==> hash in Taken(Part(hashes, Route(hash, |workers|), |workers|), limit)
    ensures hash in files ==> files[hash] == Stats(workers[Route(hash, |workers|)], hash)
  {
    var parts := PartsOf(hashes, |workers|);
    var answers := Answers(workers, parts, limit);
    var w := Route(hash, |workers|);
    forall v | v in parts && hash in answers[v]
      ensures v == w && answers[v][hash] == Stats(workers[w], hash)
    {
      PartHolds(hashes, v, |workers|, hash);
      assert hash in parts[v];
    }
    if hash in Taken(Part(hashes, w, |workers|), limit) {
      PartHolds(hashes, w, |workers|, hash);
      assert w in parts && hash in answers[w];
    }
  }

  // Whether the worker of a hash takes it.
  predicate Answered(hashes: seq<InfoHash>, limit: nat, numWorkers: nat, hash: InfoHash) {
    hash in Taken(Part(hashes, Route(hash, numWorkers), numWorkers), limit)
  }

  lemma AnswersOf(
      workers: seq<Torrents>, all: Torrents, hashes: seq<InfoHash>, limit: nat, files: Files, hash: InfoHash)
    requires workers != [] && Shares(workers, all)
    requires IsUnion(files, Answers(workers, PartsOf(hashes, |workers|), limit))
    ensures hash in files <==> Answered(hashes, limit, |workers|, hash)
    ensures hash in files ==> hash in hashes && files[hash] == Stats(all, hash)
    ensures hash in Taken(hashes, limit) ==> hash in files
  {
    GatheredAreOwn(workers, hashes, limit, files, hash);
    SharedStats(workers, all, hash);
    if hash in Taken(hashes, limit) {
      TakenByItsWorker(hashes, limit, |workers|, hash);
    }
    PartHolds(hashes, Route(hash, |workers|), |workers|, hash);
  }

  // When the fan-out answers like a single store, exactly: when no worker takes a
  // hash that lies beyond the limit of the whole request. It never answers less.
  lemma FanOutIsExact(workers: seq<Torrents>, all: Torrents, hashes: seq<InfoHash>, limit: nat, files: Files)
    requires workers != [] && Shares(workers, all)
    requires IsUnion(files, Answers(workers, PartsOf(hashes, |workers|), limit))
    ensures ScrapeFiles(all, hashes, limit).Keys <= files.Keys
    ensures files == ScrapeFiles(all, hashes, limit) <==>
      forall hash <- hashes :: Answered(hashes, limit, |workers|, hash) ==> hash in Taken(hashes, limit)
  {
    forall hash
      ensures AnsweredTruly(all, hashes, limit, |workers|, files, hash)
    {
      AnswersOf(workers, all, hashes, limit, files, hash);
    }
    KeysDecide(all, hashes, limit, |workers|, files);
  }

  predicate AnsweredTruly(
      all: Torrents, hashes: seq<InfoHash>, limit: nat, numWorkers: nat, files: Files, hash: InfoHash) {
    && (hash in files <==> Answered(hashes, limit, numWorkers, hash))
    && (hash in files ==> hash in hashes && files[hash] == Stats(all, hash))
    && (hash in Taken(hashes, limit) ==> hash in files)
  }

  lemma KeysDecide(all: Torrents, hashes: seq<InfoHash>, limit: nat, numWorkers: nat, files: Files)
    requires forall hash :: AnsweredTruly(all, hashes, limit, numWorkers, files, hash)
    ensures ScrapeFiles(all, hashes, limit).Keys <= files.Keys
    ensures files == ScrapeFiles(all, hashes, limit) <==>
      forall hash <- hashes :: Answered(hashes, limit, numWorkers, hash) ==> hash in Taken(hashes, limit)
  {
    var single := ScrapeFiles(all, hashes, limit);
    forall hash | hash in single
      ensures hash in files && files[hash] == single[hash]
    {
      assert AnsweredTruly(all, hashes, limit, numWorkers, files, hash);
    }
    forall hash | hash in files
      ensures hash in hashes && Answered(hashes, limit, numWorkers, hash)
    {
      assert AnsweredTruly(all, hashes, limit, numWorkers, files, hash);
    }
    if forall hash <- hashes :: Answered(hashes, limit, numWorkers, hash) ==> hash in Taken(hashes, limit) {
      assert files.Keys == single.Keys;
    } else {
      var hash :| hash in hashes && Answered(hashes, limit, numWorkers, hash) && hash !in Taken(hashes, limit);
      assert AnsweredTruly(all, hashes, limit, numWorkers, files, hash);
      assert hash in files.Keys && hash !in single.Keys;
    }
  }

  lemma GatheredEqualsSingle(
      workers: seq<Torrents>, all: Torrents, hashes: seq<InfoHash>, limit: nat, arrivals: seq<Files>, order: seq<nat>)
    requires workers != [] && Shares(workers, all) && |hashes| <= limit
    requires ArriveAs(arrivals, order, Answers(workers, PartsOf(hashes, |workers|), limit))
    ensures Merge(arrivals) == ScrapeFiles(all, hashes, limit)
  {
    MergeIsUnion(arrivals, order, Answers(workers, PartsOf(hashes, |workers|), limit));
    FanOutIsExact(workers, all, hashes, limit, Merge(arrivals));
    assert Taken(hashes, limit) == hashes;
  }

  lemma SingleTells(ops: seq<SwarmOp>, hashes: seq<InfoHash>, limit: nat, numWorkers: nat)
    requires |hashes| <= limit
    ensures var files := ScrapeFiles(RunOne(map[], ops, numWorkers), hashes, limit);
      && files.Keys == SetOf(hashes)
      && forall hash <- files :: Tells(files[hash], Story(NO_PLAIN, ops, hash, numWorkers))
  {
    var files := ScrapeFiles(RunOne(map[], ops, numWorkers), hashes, limit);
    assert hashes[..Min(limit, |hashes|)] == hashes;
    forall hash | hash in files
      ensures Tells(files[hash], Story(NO_PLAIN, ops, hash, numWorkers))
    {
      StatsTellStory(ops, hash, numWorkers);
    }
  }

  // Fan-out equals one store. Start empty, route any announcements by the first
  // byte of their hash, let every worker clean whenever it likes; then a scrape of
  // at most `limit` hashes, its replies merged in any order of arrival, is exactly
  // the answer of one worker that owned all torrents. And that answer is true: each
  // hash gets the numbers of seeders, of other peers and of downloads that its own
  // story amounts to.
  lemma FanOutEqualsSingle(
      numWorkers: nat, ops: seq<SwarmOp>, hashes: seq<InfoHash>, limit: nat, arrivals: seq<Files>, order: seq<nat>)
    requires numWorkers > 0 && |hashes| <= limit
    requires var workers := RunAll(seq(numWorkers, _ => map[]), ops);
      ArriveAs(arrivals, order, Answers(workers, PartsOf(hashes, |workers|), limit))
    ensures Merge(arrivals) == ScrapeFiles(RunOne(map[], ops, numWorkers), hashes, limit)
    ensures Merge(arrivals).Keys == SetOf(hashes)
    ensures forall hash <- Merge(arrivals) :: Tells(Merge(arrivals)[hash], Story(NO_PLAIN, ops, hash, numWorkers))
  {
    var start: seq<Torrents> := seq(numWorkers, _ => map[]);
    RunShares(start, map[], ops);
    GatheredEqualsSingle(RunAll(start, ops), RunOne(map[], ops, numWorkers), hashes, limit, arrivals, order);
    SingleTells(ops, hashes, limit, numWorkers);
  }

  // The workers as each of them is when it answers: one operation after the other
  // goes by while the parts of a request are under way, and a worker may answer
  // after any number of them.
  function WhenAnswering(
      start: seq<Torrents>, before: seq<SwarmOp>, during: seq<SwarmOp>, moments: seq<nat>): seq<Torrents>
    requires start != [] && |moments| == |start| && forall moment <- moments :: moment <= |during|
  {
    seq(|start|, w requires 0 <= w < |start| =>
      assert moments[w] in moments;
      RunAll(start, before + during[..moments[w]])[w])
  }

  // A worker's own answer is that of a single store after the same operations.
  lemma OwnStats(start: seq<Torrents>, ops: seq<SwarmOp>, hash: InfoHash)
    requires start != [] && Shares(start, map[])
    ensures Stats(RunAll(start, ops)[Route(hash, |start|)], hash) == Stats(RunOne(map[], ops, |start|), hash)
  {
    RunShares(start, map[], ops);
    SharedStats(RunAll(start, ops), RunOne(map[], ops, |start|), hash);
  }

  // What is said of a hash: nothing if it was not asked for, and otherwise what a
  // single store would say at the moment its worker answers.
  ghost predicate TrueInTime(
      files: Files, numWorkers: nat, before: seq<SwarmOp>, during: seq<SwarmOp>, moments: seq<nat>,
      hashes: seq<InfoHash>, hash: InfoHash)
    requires numWorkers > 0 && |moments| == numWorkers
  {
    var moment := moments[Route(hash, numWorkers)];
    && (hash in files <==> hash in hashes)
    && (hash in files ==>
          && moment <= |during|
          && files[hash] == Stats(RunOne(map[], before + during[..moment], numWorkers), hash)
          && Tells(files[hash], Story(NO_PLAIN, before + during[..moment], hash, numWorkers)))
  }

  lemma AnsweredInTime(
      numWorkers: nat, before: seq<SwarmOp>, during: seq<SwarmOp>, moments: seq<nat>,
      hashes: seq<InfoHash>, limit: nat, files: Files, hash: InfoHash)
    requires numWorkers > 0 && |hashes| <= limit
    requires |moments| == numWorkers && forall moment <- moments :: moment <= |during|
    requires var workers := WhenAnswering(seq(numWorkers, _ => map[]), before, during, moments);
      IsUnion(files, Answers(workers, PartsOf(hashes, |workers|), limit))
    ensures TrueInTime(files, numWorkers, before, during, moments, hashes, hash)
  {
    var start: seq<Torrents> := seq(numWorkers, _ => map[]);
    var workers, w := WhenAnswering(start, before, during, moments), Route(hash, numWorkers);
    assert moments[w] in moments;
    AsItWas(start, before + during[..moments[w]], workers, hashes, limit, files, hash);
    StatsTellStory(before + during[..moments[w]], hash, numWorkers);
  }

  lemma AsItWas(
      start: seq<Torrents>, ops: seq<SwarmOp>, workers: seq<Torrents>,
      hashes: seq<InfoHash>, limit: nat, files: Files, hash: InfoHash)
    requires start != [] && Shares(start, map[]) && |workers| == |start| && |hashes| <= limit
    requires workers[Route(hash, |start|)] == RunAll(start, ops)[Route(hash, |start|)]
    requires IsUnion(files, Answers(workers, PartsOf(hashes, |workers|), limit))
    ensures hash in files <==> hash in hashes
    ensures hash in files ==> files[hash] == Stats(RunOne(map[], ops, |start|), hash)
  {
    assert Taken(hashes, limit) == hashes;
    GatheredAreOwn(workers, hashes, limit, files, hash);
    PartHolds(hashes, Route(hash, |start|), |start|, hash);
    if hash in hashes {
      TakenByItsWorker(hashes, limit, |start|, hash);
    }
    OwnStats(start, ops, hash);
  }

  // Workers that answer at different moments: of a scrape of at most `limit` hashes
  // every hash is answered, and each with what a single worker would have said at
  // one moment between the split of the request and the reply.
  lemma FanOutOverTime(
      numWorkers: nat, before: seq<SwarmOp>, during: seq<SwarmOp>, moments: seq<nat>,
      hashes: seq<InfoHash>, limit: nat, arrivals: seq<Files>, order: seq<nat>)
    requires numWorkers > 0 && |hashes| <= limit
    requires |moments| == numWorkers && forall moment <- moments :: moment <= |during|
    requires var workers := WhenAnswering(seq(numWorkers, _ => map[]), before, during, moments);
      ArriveAs(arrivals, order, Answers(workers, PartsOf(hashes, |workers|), limit))
    ensures forall hash :: TrueInTime(Merge(arrivals), numWorkers, before, during, moments, hashes, hash)
  {
    var workers := WhenAnswering(seq(numWorkers, _ => map[]), before, during, moments);
    MergeIsUnion(arrivals, order, Answers(workers, PartsOf(hashes, |workers|), limit));
    forall hash
      ensures TrueInTime(Merge(arrivals), numWorkers, before, during, moments, hashes, hash)
    {
      AnsweredInTime(numWorkers, before, during, moments, hashes, limit, Merge(arrivals), hash);
    }
  }

  // Beyond the limit the two differ: with two workers and a limit of one, two
  // hashes of different workers are both answered.
  lemma LongScrapesDiffer(a: InfoHash, b: InfoHash, files: Files)
    requires Route(a, 2) == 0 && Route(b, 2) == 1
    requires IsUnion(files, Answers([map[], map[]], PartsOf([a, b], 2), 1))
    ensures files != ScrapeFiles(map[], [a, b], 1)
  {
    var hashes := [a, b];
    FanOutIsExact([map[], map[]], map[], hashes, 1, files);
    assert Part(hashes, 1, 2) == [b] by {
      PartNext(hashes, 1, 1, 2);
      PartNext(hashes, 0, 1, 2);
      assert hashes[..2] == hashes && hashes[..0] == [];
    }
    assert Taken([b], 1) == [b] && Taken(hashes, 1) == [a];
    assert Answered(hashes, 1, 2, b) && b in hashes;
  }
}
