// Scrapes on one WebSocket connection: the reader registers a scrape in a slab
// and asks several workers, the writer collects the replies under the slab id.
// Many scrapes are pending at once, replies come in any order and may be lost.
module WsScrape {
  import opened Base
  import opened InfoHashes
  import opened HttpSwarm
  import opened FanOut

  const MAX_ID := 256

  // `pending_worker_out_messages` and what has been collected.
  datatype Pending = Pending(left: int, stats: Files)

  type Slab = map<nat, Pending>

  // The slab as reader and writer share it. It hands out some vacant key; which
  // one is its own business.
  class ScrapeSlab {
    var slab: Slab
    var failed: bool
    // The scrapes of this connection so far, each with its story.
    ghost var scrapes: seq<Scrape>

    constructor ()
      ensures Story() == START && Sound()
    {
      slab, failed, scrapes := map[], false, [];
    }

    ghost function Story(): State
      reads this
    {
      State(slab, scrapes, failed)
    }

    ghost predicate Sound()
      reads this
    {
      Inv(Story())
    }

    // `handle_scrape_request`: the entry is made before its id is checked.
    method Register(numWorkers: nat, key: nat) returns (id: Option<nat>)
      requires key !in slab
      modifies this`slab
      ensures slab == old(slab)[key := Pending(numWorkers, map[])]
      ensures id == if key < MAX_ID then Some(key) else None
    {
      slab := slab[key := Pending(numWorkers, map[])];
      id := if key < MAX_ID then Some(key) else None;
    }

    // The ScrapeResponse branch of the writer loop: an unknown id is an error, the
    // last reply removes the entry and sends the answer.
    method Receive(id: nat, files: Files) returns (r: Result<Option<Files>>)
      modifies this`slab
      ensures r.Err? <==> id !in old(slab)
      ensures r.Err? ==> slab == old(slab)
      ensures r.Ok? ==> (slab, r.value) == Collect(old(slab), id, files)
    {
      if id !in slab {
        return Err;
      }
      var pending := slab[id];
      pending := Pending(pending.left - 1, pending.stats + files);
      slab := slab[id := pending];
      if pending.left == 0 {
        slab := slab - {id};
        assert slab == old(slab) - {id};
        return Ok(Some(pending.stats));
      }
      return Ok(None);
    }

    // The reader takes on a scrape. Either the connection fails over the id, or the
    // scrape is open under an id no other open scrape has.
    method Submit(numWorkers: nat, ghost workers: set<nat>, key: nat) returns (id: Option<nat>)
      requires Sound() && !failed && key !in slab && |workers| == numWorkers
      modifies this
      ensures Sound() && Story() == Step(old(Story()), Action.Submit(workers, key))
      ensures failed <==> id.None?
      ensures id.Some? ==>
        && |scrapes| == |old(scrapes)| + 1
        && var scrape := scrapes[|old(scrapes)|];
           && scrape.id == id.value && scrape.workers == workers && scrape.received == []
           && forall other <- old(scrapes) :: IsOpen(scrape) && IsOpen(other) ==> other.id != id.value
    {
      SubmitKeeps(Story(), workers, key);
      id := Register(numWorkers, key);
      failed := id.None?;
      if id.Some? {
        scrapes := scrapes + [Scrape(key, workers, workers, [], 0, [])];
      }
    }

    // The writer takes in the reply of one worker to one scrape, of which it
    // knows only the id. It sends an answer exactly with the last reply, and the
    // answer is the merge of the replies to this scrape.
    method TakeReply(id: nat, files: Files, ghost serial: nat, ghost worker: nat) returns (answer: Option<Files>)
      requires Sound() && !failed
      requires serial < |scrapes| && scrapes[serial].id == id && worker in scrapes[serial].outstanding
      modifies this
      ensures Sound() && Story() == Step(old(Story()), Reply(serial, worker, files)) && !failed
      ensures |scrapes| == |old(scrapes)|
      ensures answer.Some? <==> !IsOpen(scrapes[serial])
      ensures answer.Some? ==> answer.value == Merge(scrapes[serial].received)
    {
      ReplyKeeps(Story(), serial, worker, files);
      ReplyToOwner(slab, scrapes[serial], worker, files);
      ghost var scrape := scrapes[serial];
      var reply := Receive(id, files);
      answer := reply.value;
      scrapes := scrapes[serial := scrape.(
        outstanding := scrape.outstanding - {worker},
        received := scrape.received + [files],
        answers := if answer.Some? then scrape.answers + [answer.value] else scrape.answers)];
    }
  }

  function Collect(slab: Slab, id: nat, files: Files): (Slab, Option<Files>)
    requires id in slab
  {
    var pending := Pending(slab[id].left - 1, slab[id].stats + files);
    if pending.left == 0 then (slab - {id}, Some(pending.stats)) else (slab[id := pending], None)
  }

  // ------------------------------------------------------------ the connection

  // The story of one scrape, as nobody in the program sees it: the id it was
  // given, the workers it asked, those still to reply, what came back in order of
  // arrival, how many replies were lost, and the answers sent for it.
  datatype Scrape = Scrape(
    id: nat,
    workers: set<nat>,
    outstanding: set<nat>,
    received: seq<Files>,
    lost: nat,
    answers: seq<Files>)

  datatype State = State(slab: Slab, scrapes: seq<Scrape>, failed: bool)

  datatype Action =
    | Submit(workers: set<nat>, key: nat)
    | Reply(serial: nat, worker: nat, files: Files)
    | Lose(serial: nat, worker: nat)

  const START := State(map[], [], false)

  // One action; an action that is not enabled changes nothing. A reply carries
  // only the id of its scrape.
  function Step(s: State, a: Action): State {
    if s.failed then s
    else
      match a
      case Submit(workers, key) =>
        if key in s.slab then s
        else
          var slab := s.slab[key := Pending(|workers|, map[])];
          if key >= MAX_ID then s.(slab := slab, failed := true)
          else s.(slab := slab, scrapes := s.scrapes + [Scrape(key, workers, workers, [], 0, [])])
      case Reply(serial, worker, files) =>
        if serial < |s.scrapes| && worker in s.scrapes[serial].outstanding then
          var scrape := s.scrapes[serial];
          if scrape.id !in s.slab then s.(failed := true)
          else
            var (slab, answer) := Collect(s.slab, scrape.id, files);
            var after := scrape.(
              outstanding := scrape.outstanding - {worker},
              received := scrape.received + [files],
              answers := if answer.Some? then scrape.answers + [answer.value] else scrape.answers);
            s.(slab := slab, scrapes := s.scrapes[serial := after])
        else s
      case Lose(serial, worker) =>
        if serial < |s.scrapes| && worker in s.scrapes[serial].outstanding then
          var scrape := s.scrapes[serial];
          s.(scrapes := s.scrapes[serial := scrape.(
            outstanding := scrape.outstanding - {worker}, lost := scrape.lost + 1)])
        else s
  }

  function Run(s: State, actions: seq<Action>): State
    decreases |actions|
  {
    if actions == [] then s else Run(Step(s, actions[0]), actions[1..])
  }

  // ------------------------------------------------------------ the invariant

  // Not all of its workers have replied.
  predicate IsOpen(scrape: Scrape) {
    |scrape.received| < |scrape.workers|
  }

  // An open scrape has its entry to itself; a closed one with workers has been
  // answered once, with everything it received.
  ghost predicate ScrapeOk(slab: Slab, scrape: Scrape) {
    && |scrape.workers| == |scrape.outstanding| + |scrape.received| + scrape.lost
    && (IsOpen(scrape) ==>
         && scrape.answers == []
         && scrape.id in slab
         && slab[scrape.id].left == |scrape.workers| - |scrape.received|
         && slab[scrape.id].stats == Merge(scrape.received))
    && (!IsOpen(scrape) ==>
         scrape.answers == if scrape.workers == {} then [] else [Merge(scrape.received)])
  }

  ghost predicate Inv(s: State) {
    && (forall i | 0 <= i < |s.scrapes| :: ScrapeOk(s.slab, s.scrapes[i]))
    && (forall i, j | 0 <= i < j < |s.scrapes| ::
          IsOpen(s.scrapes[i]) && IsOpen(s.scrapes[j]) ==> s.scrapes[i].id != s.scrapes[j].id)
  }

  lemma SubmitKeeps(s: State, workers: set<nat>, key: nat)
    requires Inv(s)
    ensures Inv(Step(s, Submit(workers, key)))
  {
  }

  // One reply, seen from the scrape it belongs to.
  lemma ReplyToOwner(slab: Slab, scrape: Scrape, worker: nat, files: Files)
    requires ScrapeOk(slab, scrape) && worker in scrape.outstanding
    ensures IsOpen(scrape) && scrape.id in slab && slab[scrape.id].left > 0
    ensures var (after, answer) := Collect(slab, scrape.id, files);
      var scrape' := scrape.(
        outstanding := scrape.outstanding - {worker},
        received := scrape.received + [files],
        answers := if answer.Some? then scrape.answers + [answer.value] else scrape.answers);
      ScrapeOk(after, scrape')
  {
  }

  lemma ReplyKeeps(s: State, serial: nat, worker: nat, files: Files)
    requires Inv(s)
    ensures Inv(Step(s, Reply(serial, worker, files)))
    ensures !s.failed ==> !Step(s, Reply(serial, worker, files)).failed
  {
  }

  lemma LoseKeeps(s: State, serial: nat, worker: nat)
    requires Inv(s)
    ensures Inv(Step(s, Lose(serial, worker)))
  {
  }

  lemma StepKeeps(s: State, a: Action)
    requires Inv(s)
    ensures Inv(Step(s, a))
  {
    match a
    case Submit(workers, key) => SubmitKeeps(s, workers, key);
    case Reply(serial, worker, files) => ReplyKeeps(s, serial, worker, files);
    case Lose(serial, worker) => LoseKeeps(s, serial, worker);
  }

  lemma {:induction false} RunKeeps(s: State, actions: seq<Action>)
    requires Inv(s)
    ensures Inv(Run(s, actions))
    decreases |actions|
  {
    if actions != [] {
      StepKeeps(s, actions[0]);
      RunKeeps(Step(s, actions[0]), actions[1..]);
    }
  }

  // ------------------------------------------------------------ what clients get

  // However scrapes, replies and losses are interleaved, every scrape is answered
  // at most once, exactly when it asked some workers and all of them have replied,
  // and with the merge of its own replies: of as many as it has workers, no other
  // scrape's among them. Scrapes that are still open never share an id.
  lemma AnswersAreExact(actions: seq<Action>, serial: nat)
    requires serial < |Run(START, actions).scrapes|
    ensures var s := Run(START, actions);
      var scrape := s.scrapes[serial];
      && |scrape.answers| <= 1
      && (scrape.answers != [] <==>
           scrape.workers != {} && scrape.outstanding == {} && scrape.lost == 0)
      && (scrape.answers != [] ==>
           scrape.answers == [Merge(scrape.received)] && |scrape.received| == |scrape.workers|)
      && (forall other | 0 <= other < |s.scrapes| && other != serial ::
           IsOpen(scrape) && IsOpen(s.scrapes[other]) ==> scrape.id != s.scrapes[other].id)
  {
    RunKeeps(START, actions);
    var scrape := Run(START, actions).scrapes[serial];
    assert ScrapeOk(Run(START, actions).slab, scrape);
  }

  // A reply always finds the entry of its scrape, with a reply still owed to it:
  // the lookup never fails and the counter never goes below zero.
  lemma ReplyFindsItsEntry(actions: seq<Action>, serial: nat, worker: nat)
    requires var s := Run(START, actions);
      serial < |s.scrapes| && worker in s.scrapes[serial].outstanding
    ensures var s := Run(START, actions);
      var scrape := s.scrapes[serial];
      scrape.id in s.slab && s.slab[scrape.id].left > 0 && s.slab[scrape.id].stats == Merge(scrape.received)
  {
    RunKeeps(START, actions);
    var s := Run(START, actions);
    assert ScrapeOk(s.slab, s.scrapes[serial]);
    ReplyToOwner(s.slab, s.scrapes[serial], worker, map[]);
  }

  // The connection breaks off only over an id that does not fit its byte.
  lemma {:induction false} OnlyIdsFail(s: State, actions: seq<Action>)
    requires Inv(s) && !s.failed
    requires forall a <- actions :: a.Submit? ==> a.key < MAX_ID
    ensures !Run(s, actions).failed
    decreases |actions|
  {
    if actions != [] {
      StepKeeps(s, actions[0]);
      if actions[0].Reply? {
        ReplyKeeps(s, actions[0].serial, actions[0].worker, actions[0].files);
      }
      OnlyIdsFail(Step(s, actions[0]), actions[1..]);
    }
  }
}
