/**
 The epoch watcher: one polling loop, and the clearing cycles and auto-rolls it
 starts and does not wait for. Each event is what runs between two awaits, so a
 sequence of events is an interleaving of polls, reveals and completions.
 */
module Watcher {
  import opened FixedPoint
  import opened Reveals
  import Queue

  const ROLL_COOLDOWN: int := 90000

  /** What the watcher was built with: a clearing context, a roll call, a balance reader. */
  datatype Config = Config(clearing: bool, rolling: bool, balanceReader: bool)

  /** Where the polling loop is suspended. */
  datatype Poll = Asleep | AskingEpoch | AskingBlock(epoch: int, closesAt: int) | AskingBalance(epoch: int)

  /** A background call: a clearing cycle, an auto-roll, or either one waiting for its `finally`. */
  datatype Job = Reading | Working(drained: seq<Payload>) | Rolling | Ending

  /** `skips` counts cycles turned away by the cycle's own flag; `rolls` holds the roll decisions' times. */
  datatype State = State(
    poll: Poll, jobs: seq<Job>, inFlight: bool, cycleFlag: bool, lastRollAt: int,
    queue: Queue.State, skips: nat, rolls: seq<int>)

  const START: State := State(Asleep, [], false, false, 0, Queue.EMPTY, 0, [])

  datatype Event =
    | Wake
    | EpochRead(epoch: int, closesAt: int)
    | BlockRead(block: Option<int>, now: int)
    | BalanceRead(low: bool)
    | ReadFails
    | RevealArrives(p: Payload)
    | CycleStops(job: nat)
    | CycleDrains(job: nat, epoch: int)
    | CycleReturns(job: nat)
    | CycleThrows(job: nat)
    | RollSettles(job: nat)
    | JobEnds(job: nat)

  // ------------------------------------------------------------- transitions

  /** The cycle's own flag turns a second cycle away at once. */
  function StartCycle(s: State): State {
    if s.cycleFlag then s.(inFlight := true, jobs := s.jobs + [Ending], skips := s.skips + 1)
    else s.(inFlight := true, jobs := s.jobs + [Reading], cycleFlag := true)
  }

  function StartRoll(s: State): State {
    s.(inFlight := true, jobs := s.jobs + [Rolling])
  }

  predicate Expired(block: Option<int>, closesAt: int) {
    block.Some? && block.value >= closesAt
  }

  /** Both answers are in: refresh the queue's window, then clear, roll or do nothing. */
  function Decide(c: Config, s: State, block: Option<int>, now: int): State
    requires s.poll.AskingBlock?
  {
    var e := s.poll.epoch;
    var q := Queue.SetCurrent(s.queue, e);
    var queued := |Queue.Inner(q, e)|;
    var t := s.(poll := Asleep, queue := q);
    if !Expired(block, s.poll.closesAt) || !c.clearing || s.inFlight then t
    else if queued > 0 then StartCycle(t)
    else if c.rolling && now - s.lastRollAt > ROLL_COOLDOWN then
      var u := t.(lastRollAt := now, rolls := s.rolls + [now]);
      if c.balanceReader then u.(poll := AskingBalance(e)) else StartRoll(u)
    else t
  }

  function StepPoll(c: Config, s: State, ev: Event): State {
    match (s.poll, ev)
    case (Asleep, Wake) => s.(poll := AskingEpoch)
    case (AskingEpoch, EpochRead(e, closesAt)) => s.(poll := AskingBlock(e, closesAt))
    case (AskingEpoch, ReadFails) => s.(poll := Asleep)
    case (AskingBlock(_, _), BlockRead(block, now)) => Decide(c, s, block, now)
    case (AskingBlock(_, _), ReadFails) => s.(poll := Asleep)
    case (AskingBalance(_), BalanceRead(low)) =>
      if low then s.(poll := Asleep) else StartRoll(s.(poll := Asleep))
    case (AskingBalance(_), ReadFails) => StartRoll(s.(poll := Asleep))
    case _ => s
  }

  /** A cycle leaves its body: the flag goes, and what it drained comes back if it threw. */
  function LeaveCycle(s: State, i: nat, back: seq<Payload>): State
    requires i < |s.jobs|
  {
    s.(jobs := s.jobs[i := Ending], cycleFlag := false, queue := Queue.PutAll(s.queue, back))
  }

  function StepJob(s: State, ev: Event): State {
    match ev
    case CycleStops(i) => if i < |s.jobs| && s.jobs[i].Reading? then LeaveCycle(s, i, []) else s
    case CycleDrains(i, e) =>
      if i < |s.jobs| && s.jobs[i].Reading? then
        s.(jobs := s.jobs[i := Working(Queue.Inner(s.queue, e))], queue := Queue.Take(s.queue, e))
      else s
    case CycleReturns(i) => if i < |s.jobs| && s.jobs[i].Working? then LeaveCycle(s, i, []) else s
    case CycleThrows(i) =>
      if i < |s.jobs| && s.jobs[i].Working? then LeaveCycle(s, i, s.jobs[i].drained)
      else if i < |s.jobs| && s.jobs[i].Reading? then LeaveCycle(s, i, [])
      else s
    case RollSettles(i) => if i < |s.jobs| && s.jobs[i].Rolling? then s.(jobs := s.jobs[i := Ending]) else s
    case JobEnds(i) =>
      if i < |s.jobs| && s.jobs[i].Ending? then s.(jobs := s.jobs[..i] + s.jobs[i + 1..], inFlight := false) else s
    case _ => s
  }

  predicate OfPoll(ev: Event) {
    ev.Wake? || ev.EpochRead? || ev.BlockRead? || ev.BalanceRead? || ev.ReadFails?
  }

  /** An event that cannot happen in a state leaves it alone. */
  function Step(c: Config, s: State, ev: Event): State {
    if OfPoll(ev) then StepPoll(c, s, ev)
    else if ev.RevealArrives? then s.(queue := Queue.Put(s.queue, ev.p))
    else StepJob(s, ev)
  }

  function Run(c: Config, s: State, evs: seq<Event>): State {
    if |evs| == 0 then s else Step(c, Run(c, s, evs[..|evs| - 1]), evs[|evs| - 1])
  }

  // ------------------------------------------------------------- the program

  class EpochWatcher {
    const config: Config
    const queue: Queue.RevealQueue
    var poll: Poll
    var jobs: seq<Job>
    var clearingInFlight: bool
    var cycleInFlight: bool
    var lastAutoRollAt: int
    var skips: nat
    var rolls: seq<int>

    function Value(): State
      reads this, queue
    {
      State(poll, jobs, clearingInFlight, cycleInFlight, lastAutoRollAt, queue.Value(), skips, rolls)
    }

    constructor (config: Config)
      ensures this.config == config && fresh(queue)
      ensures Value() == START
    {
      this.config := config;
      queue := new Queue.RevealQueue();
      poll, jobs, clearingInFlight, cycleInFlight := Asleep, [], false, false;
      lastAutoRollAt, skips, rolls := 0, 0, [];
    }

    method BeginCycle()
      modifies this
      ensures Value() == StartCycle(old(Value()))
    {
      clearingInFlight := true;
      if cycleInFlight {
        jobs, skips := jobs + [Ending], skips + 1;
      } else {
        cycleInFlight := true;
        jobs := jobs + [Reading];
      }
    }

    method BeginRoll()
      modifies this
      ensures Value() == StartRoll(old(Value()))
    {
      clearingInFlight := true;
      jobs := jobs + [Rolling];
    }

    /** The poll's last segment: both reads have answered. */
    method OnBlock(block: Option<int>, now: int)
      requires poll.AskingBlock?
      modifies this, queue
      ensures Value() == Decide(config, old(Value()), block, now)
    {
      var epoch, closesAt := poll.epoch, poll.closesAt;
      queue.SetCurrentEpoch(epoch);
      var queued := queue.SizeForEpoch(epoch);
      var wouldClear := queued > 0 && block.Some? && block.value >= closesAt;
      poll := Asleep;
      if wouldClear && config.clearing && !clearingInFlight {
        BeginCycle();
      } else if config.clearing && config.rolling && !clearingInFlight && block.Some? && block.value >= closesAt
             && queued == 0 && now - lastAutoRollAt > ROLL_COOLDOWN {
        lastAutoRollAt := now;
        rolls := rolls + [now];
        if config.balanceReader {
          poll := AskingBalance(epoch);
        } else {
          BeginRoll();
        }
      }
    }

    method OnPoll(ev: Event)
      requires OfPoll(ev)
      modifies this, queue
      ensures Value() == StepPoll(config, old(Value()), ev)
    {
      match poll {
        case Asleep =>
          if ev.Wake? {
            poll := AskingEpoch;
          }
        case AskingEpoch =>
          if ev.EpochRead? {
            poll := AskingBlock(ev.epoch, ev.closesAt);
          } else if ev.ReadFails? {
            poll := Asleep;
          }
        case AskingBlock(_, _) =>
          if ev.BlockRead? {
            OnBlock(ev.block, ev.now);
          } else if ev.ReadFails? {
            poll := Asleep;
          }
        case AskingBalance(_) =>
          if ev.BalanceRead? || ev.ReadFails? {
            poll := Asleep;
            if ev.ReadFails? || !ev.low {
              BeginRoll();
            }
          }
      }
    }

    method EndCycle(i: nat, back: seq<Payload>)
      requires i < |jobs|
      modifies this, queue
      ensures Value() == LeaveCycle(old(Value()), i, back)
    {
      queue.EnqueueAll(back);
      cycleInFlight := false;
      jobs := jobs[i := Ending];
    }

    method OnJob(ev: Event)
      modifies this, queue
      ensures Value() == StepJob(old(Value()), ev)
    {
      match ev {
        case CycleStops(i) =>
          if i < |jobs| && jobs[i].Reading? {
            EndCycle(i, []);
          }
        case CycleDrains(i, e) =>
          if i < |jobs| && jobs[i].Reading? {
            var drained := queue.DrainEpoch(e);
            jobs := jobs[i := Working(drained)];
          }
        case CycleReturns(i) =>
          if i < |jobs| && jobs[i].Working? {
            EndCycle(i, []);
          }
        case CycleThrows(i) =>
          if i < |jobs| && (jobs[i].Working? || jobs[i].Reading?) {
            EndCycle(i, if jobs[i].Working? then jobs[i].drained else []);
          }
        case RollSettles(i) =>
          if i < |jobs| && jobs[i].Rolling? {
            jobs := jobs[i := Ending];
          }
        case JobEnds(i) =>
          if i < |jobs| && jobs[i].Ending? {
            jobs := jobs[..i] + jobs[i + 1..];
            clearingInFlight := false;
          }
        case _ =>
      }
    }

    method Handle(ev: Event)
      modifies this, queue
      ensures Value() == Step(config, old(Value()), ev)
    {
      if OfPoll(ev) {
        OnPoll(ev);
      } else if ev.RevealArrives? {
        queue.Enqueue(ev.p);
      } else {
        OnJob(ev);
      }
    }

    /** Any finite part of the watcher's life. */
    method Drive(evs: seq<Event>)
      modifies this, queue
      ensures Value() == Run(config, old(Value()), evs)
    {
      hide Step;
      for i := 0 to |evs|
        invariant Value() == Run(config, old(Value()), evs[..i])
      {
        assert evs[..i + 1][..i] == evs[..i];
        Handle(evs[i]);
      }
      assert evs[..|evs|] == evs;
    }
  }

  // ------------------------------------------------------- mutual exclusion

  /** Nobody else runs while a cycle or a roll is pending, and both flags say so. */
  ghost predicate Exclusive(s: State) {
    && |s.jobs| <= 1
    && (s.inFlight <==> |s.jobs| == 1)
    && (s.cycleFlag <==> |s.jobs| == 1 && (s.jobs[0].Reading? || s.jobs[0].Working?))
    && (s.poll.AskingBalance? ==> |s.jobs| == 0)
    && s.skips == 0
  }

  /** A roll waits out the cooldown, counted from the previous roll decision. */
  ghost predicate Spaced(rolls: seq<int>, last: int) {
    && (|rolls| == 0 ==> last == 0)
    && (|rolls| > 0 ==> rolls[|rolls| - 1] == last)
    && forall i :: 0 < i < |rolls| ==> rolls[i] - rolls[i - 1] > ROLL_COOLDOWN
  }

  /** The balance is asked about the epoch the queue is centred on. */
  ghost predicate Centred(s: State) {
    s.poll.AskingBalance? ==> s.queue.current == Some(s.poll.epoch)
  }

  ghost predicate Inv(s: State) {
    Exclusive(s) && Spaced(s.rolls, s.lastRollAt) && Centred(s) && Queue.Valid(s.queue)
  }

  /** The queue moves by its own operations only. */
  lemma StepKeepsQueue(c: Config, s: State, ev: Event)
    requires Queue.Valid(s.queue)
    ensures Queue.Valid(Step(c, s, ev).queue)
    ensures ev.BlockRead? || Step(c, s, ev).queue.current == s.queue.current
  {
    hide Queue.Valid, Queue.Slots, Queue.Inner;
    match ev
    case BlockRead(block, now) =>
      if s.poll.AskingBlock? {
        Queue.ApplyKeepsValid(s.queue, Queue.SetEpoch(s.poll.epoch));
      }
    case RevealArrives(p) => Queue.ApplyKeepsValid(s.queue, Queue.Arrive(p));
    case CycleDrains(i, e) => Queue.ApplyKeepsValid(s.queue, Queue.Drain(e));
    case CycleThrows(i) =>
      if i < |s.jobs| && s.jobs[i].Working? {
        Queue.PutAllKeepsValid(s.queue, s.jobs[i].drained);
      }
    case _ =>
  }

  lemma PollKeepsExclusive(c: Config, s: State, ev: Event)
    requires Exclusive(s) && Spaced(s.rolls, s.lastRollAt) && Centred(s)
    ensures
      var t := StepPoll(c, s, ev);
      Exclusive(t) && Spaced(t.rolls, t.lastRollAt) && Centred(t)
  {
    hide Queue.Inner, Spaced, Decide;
    if ev.BlockRead? && s.poll.AskingBlock? {
      DecideKeepsExclusive(c, s, ev.block, ev.now);
    }
  }

  lemma DecideKeepsExclusive(c: Config, s: State, block: Option<int>, now: int)
    requires Exclusive(s) && Spaced(s.rolls, s.lastRollAt) && s.poll.AskingBlock?
    ensures
      var t := Decide(c, s, block, now);
      Exclusive(t) && Spaced(t.rolls, t.lastRollAt) && Centred(t)
  {
    hide Queue.Inner, Spaced;
    if now - s.lastRollAt > ROLL_COOLDOWN {
      LaterRollIsSpaced(s.rolls, s.lastRollAt, now);
    }
  }

  lemma LaterRollIsSpaced(rolls: seq<int>, last: int, now: int)
    requires Spaced(rolls, last) && now - last > ROLL_COOLDOWN
    ensures Spaced(rolls + [now], now)
  {}

  lemma JobKeepsExclusive(s: State, ev: Event)
    requires Exclusive(s)
    ensures Exclusive(StepJob(s, ev)) && StepJob(s, ev).rolls == s.rolls
    ensures StepJob(s, ev).poll == s.poll && StepJob(s, ev).lastRollAt == s.lastRollAt
  {
    hide Queue.PutAll, Queue.Take, Queue.Inner;
  }

  lemma StepKeepsInv(c: Config, s: State, ev: Event)
    requires Inv(s)
    ensures Inv(Step(c, s, ev))
  {
    hide Queue.Valid, StepPoll, StepJob, Queue.Put;
    StepKeepsQueue(c, s, ev);
    PollKeepsExclusive(c, s, ev);
    JobKeepsExclusive(s, ev);
  }

  /**
   In every interleaving of polls, reveals and completions at most one of clearing
   cycle and auto-roll is pending, the watcher's flag is up exactly then, the cycle's
   own flag implies it, and no cycle is ever turned away; the queue stays bounded.
   */
  lemma {:induction false} RunIsExclusive(c: Config, evs: seq<Event>)
    ensures
      var s := Run(c, START, evs);
      && Inv(s)
      && |s.jobs| <= 1
      && (s.inFlight <==> |s.jobs| == 1)
      && (s.cycleFlag ==> s.inFlight)
      && s.skips == 0
      && (s.queue.current.Some? ==> |Queue.Slots(s.queue)| <= 5 * Queue.MAX_PER_EPOCH)
  {
    hide Step, Queue.Slots, Queue.Valid, Spaced;
    if |evs| == 0 {
      StartIsFine();
    } else {
      RunIsExclusive(c, evs[..|evs| - 1]);
      StepKeepsInv(c, Run(c, START, evs[..|evs| - 1]), evs[|evs| - 1]);
    }
    var s := Run(c, START, evs);
    if s.queue.current.Some? {
      Queue.SizeIsBounded(s.queue);
    }
  }

  lemma StartIsFine()
    ensures Inv(START)
  {}

  lemma {:induction false} RunKeepsInv(c: Config, s: State, evs: seq<Event>)
    requires Inv(s)
    ensures Inv(Run(c, s, evs))
  {
    hide Step, Inv;
    if |evs| > 0 {
      RunKeepsInv(c, s, evs[..|evs| - 1]);
      StepKeepsInv(c, Run(c, s, evs[..|evs| - 1]), evs[|evs| - 1]);
    }
  }

  // ------------------------------------------------------------ what is started

  /** When the previous roll was decided; never counts as time zero. */
  function LastRoll(s: State): int {
    if |s.rolls| == 0 then 0 else s.rolls[|s.rolls| - 1]
  }

  /**
   When the two reads have answered, a clearing cycle is started exactly when clearing is
   configured, nothing is pending, the epoch's last block is known to have come, and the
   queue holds a reveal for it; otherwise what is pending stays.
   */
  lemma CycleStarts(c: Config, s: State, block: Option<int>, now: int)
    requires Inv(s) && s.poll.AskingBlock?
    ensures
      var t := Step(c, s, BlockRead(block, now));
      var due := c.clearing && |s.jobs| == 0 && block.Some? && block.value >= s.poll.closesAt
                 && |Queue.Inner(s.queue, s.poll.epoch)| > 0;
      && (due <==> |s.jobs| == 0 && t.jobs == [Reading])
      && (due ==> t.inFlight && t.cycleFlag && t.poll.Asleep? && t.rolls == s.rolls)
      && (|s.jobs| > 0 ==> t.jobs == s.jobs && t.inFlight && t.rolls == s.rolls)
      && t.queue.current == Some(s.poll.epoch)
  {
    hide Queue.SetCurrent, Queue.Inner, Spaced, Queue.Valid;
    Queue.WindowIsKept(s.queue, s.poll.epoch, s.poll.epoch);
    var t := Step(c, s, BlockRead(block, now));
    assert t.jobs == [Rolling] ==> t.jobs[0] != Reading;
  }

  /**
   A roll is decided exactly when rolling is configured, nothing is pending, the epoch has
   expired without a reveal, and more than the cooldown has passed since the last roll; it
   goes out at once, or after the fee balance has been asked for.
   */
  lemma RollIsDecided(c: Config, s: State, block: Option<int>, now: int)
    requires Inv(s) && s.poll.AskingBlock?
    ensures
      var t := Step(c, s, BlockRead(block, now));
      var due := c.clearing && c.rolling && |s.jobs| == 0 && block.Some? && block.value >= s.poll.closesAt
                 && |Queue.Inner(s.queue, s.poll.epoch)| == 0 && now - LastRoll(s) > 90_000;
      && (due <==> t.rolls == s.rolls + [now])
      && (!due ==> t.rolls == s.rolls && t.poll.Asleep?)
      && (due && c.balanceReader ==> t.poll == AskingBalance(s.poll.epoch) && t.jobs == [] && !t.inFlight)
      && (due && !c.balanceReader ==> t.poll.Asleep? && t.jobs == [Rolling] && t.inFlight)
  {
    hide Queue.SetCurrent, Queue.Inner, Queue.Valid;
    Queue.WindowIsKept(s.queue, s.poll.epoch, s.poll.epoch);
  }

  /** After the balance has been asked for, the roll goes out unless the balance is low; a failed read sends it. */
  lemma RollGoesOut(c: Config, s: State, ev: Event)
    requires Inv(s) && s.poll.AskingBalance? && (ev.BalanceRead? || ev.ReadFails?)
    ensures
      var t := Step(c, s, ev);
      && t.poll.Asleep? && t.jobs == (if ev.BalanceRead? && ev.low then [] else [Rolling])
      && t.rolls == s.rolls && t.queue == s.queue
  {}

  /**
   So an idle watcher clears: from any reachable state in which it sleeps with nothing
   pending, the poll of an expired epoch with a queued reveal starts a cycle.
   */
  lemma PollClears(c: Config, evs: seq<Event>, e: int, closesAt: int, block: int, now: int)
    requires
      var s := Run(c, START, evs);
      c.clearing && s.poll.Asleep? && |s.jobs| == 0 && block >= closesAt && |Queue.Inner(s.queue, e)| > 0
    ensures
      var t := Run(c, START, evs + [Wake, EpochRead(e, closesAt), BlockRead(Some(block), now)]);
      t.jobs == [Reading] && t.inFlight && t.cycleFlag
  {
    hide Run, Decide, Queue.Valid, Queue.Inner, Spaced;
    var s := Run(c, START, evs);
    var polled := s.(poll := AskingBlock(e, closesAt));
    RunIsExclusive(c, evs);
    RunLast(c, START, evs, Wake);
    RunLast(c, START, evs + [Wake], EpochRead(e, closesAt));
    RunLast(c, START, evs + [Wake] + [EpochRead(e, closesAt)], BlockRead(Some(block), now));
    assert evs + [Wake] + [EpochRead(e, closesAt)] + [BlockRead(Some(block), now)]
        == evs + [Wake, EpochRead(e, closesAt), BlockRead(Some(block), now)];
    CycleStarts(c, polled, Some(block), now);
  }

  /**
   The started cycle's own segments: the drain takes every reveal queued for the epoch and
   no other, and a cycle that returns brings none of them back.
   */
  lemma CycleSegments(c: Config, s: State, e: int)
    requires Inv(s) && s.jobs == [Reading]
    ensures
      var drained := Step(c, s, CycleDrains(0, e));
      var ended := Step(c, drained, CycleReturns(0));
      && drained.jobs == [Working(Queue.Inner(s.queue, e))] && drained.cycleFlag
      && (forall x :: Queue.Inner(drained.queue, x) == if x == e then [] else Queue.Inner(s.queue, x))
      && ended.jobs == [Ending] && !ended.cycleFlag && ended.inFlight && ended.queue == drained.queue
      && Step(c, ended, JobEnds(0)).jobs == [] && !Step(c, ended, JobEnds(0)).inFlight
  {
    hide Spaced, Queue.Valid;
  }

  /** A cycle that ends before its drain, by a skip or a throw, frees the watcher and leaves the queue alone. */
  lemma CycleEndsEarly(c: Config, s: State, ev: Event)
    requires Inv(s) && s.jobs == [Reading] && (ev == CycleStops(0) || ev == CycleThrows(0))
    ensures
      var t := Step(c, s, ev);
      && t.jobs == [Ending] && !t.cycleFlag && t.inFlight && t.queue == s.queue
      && Step(c, t, JobEnds(0)).jobs == [] && !Step(c, t, JobEnds(0)).inFlight
  {
    hide Spaced, Queue.Valid;
  }

  /** A failed read of the epoch or the block ends the poll and changes nothing else. */
  lemma FailedReadSleeps(c: Config, s: State)
    requires s.poll.AskingEpoch? || s.poll.AskingBlock?
    ensures Step(c, s, ReadFails) == s.(poll := Asleep)
  {}

  // ------------------------------------------------------- what follows

  /** Any two roll decisions are more than the cooldown apart, per roll in between. */
  lemma {:induction false} RollsAreSpaced(c: Config, evs: seq<Event>, i: nat, j: nat)
    requires i < j < |Run(c, START, evs).rolls|
    ensures
      var rolls := Run(c, START, evs).rolls;
      rolls[j] - rolls[i] >= (ROLL_COOLDOWN + 1) * (j - i)
    decreases j
  {
    hide Run, Exclusive, Centred, Queue.Valid;
    RunIsExclusive(c, evs);
    var rolls := Run(c, START, evs).rolls;
    assert rolls[j] - rolls[j - 1] > ROLL_COOLDOWN;
    if i < j - 1 {
      RollsAreSpaced(c, evs, i, j - 1);
    }
  }

  /** A call is pending, and neither a cycle nor a roll was started since `s`. */
  ghost predicate NothingStarted(s: State, t: State) {
    && |t.jobs| == 1 && t.rolls == s.rolls
    && (t.cycleFlag ==> s.cycleFlag)
    && (|s.jobs| == 1 && t.jobs[0].Rolling? ==> s.jobs[0].Rolling?)
  }

  lemma PendingStep(c: Config, s: State, ev: Event)
    requires Inv(s) && |s.jobs| == 1 && !ev.JobEnds?
    ensures NothingStarted(s, Step(c, s, ev))
  {
    hide Queue.Valid, Queue.Slots, Queue.SetCurrent, Queue.Put, Queue.PutAll, Queue.Take, Queue.Inner, Spaced;
  }

  /**
   While a background call has not run its `finally`, nothing is started: no roll
   while a cycle is pending, no cycle while a roll is, whatever polls and reveals do.
   */
  lemma {:induction false} PendingBlocksOthers(c: Config, s: State, evs: seq<Event>)
    requires Inv(s) && |s.jobs| == 1
    requires forall i :: 0 <= i < |evs| ==> !evs[i].JobEnds?
    ensures NothingStarted(s, Run(c, s, evs))
  {
    hide Inv, Step;
    if |evs| > 0 {
      var init := evs[..|evs| - 1];
      PendingBlocksOthers(c, s, init);
      RunKeepsInv(c, s, init);
      PendingStep(c, Run(c, s, init), evs[|evs| - 1]);
    }
  }

  /** From any reachable state at most two completions free the watcher again. */
  lemma PendingCanEnd(c: Config, s: State) returns (evs: seq<Event>)
    requires Inv(s)
    ensures |evs| <= 2 && forall i :: 0 <= i < |evs| ==> evs[i] in {CycleThrows(0), RollSettles(0), JobEnds(0)}
    ensures Run(c, s, evs).jobs == [] && !Run(c, s, evs).inFlight && !Run(c, s, evs).cycleFlag
  {
    hide Queue.Valid, Queue.Slots, Queue.SetCurrent, Queue.Put, Queue.PutAll, Queue.Take, Queue.Inner, Spaced;
    evs := [];
    if |s.jobs| == 1 {
      var first := if s.jobs[0].Rolling? then RollSettles(0) else CycleThrows(0);
      evs := [first, JobEnds(0)];
      assert evs[..1] == [first] && [first][..0] == [];
      assert Run(c, s, [first]) == Step(c, s, first);
      assert Run(c, s, evs) == Step(c, Run(c, s, [first]), JobEnds(0));
    }
  }

  /** While the balance is being read nothing is pending and nothing is started. */
  lemma {:induction false} Unasked(c: Config, s: State, evs: seq<Event>)
    requires s.poll.AskingBalance? && Inv(s)
    requires forall i :: 0 <= i < |evs| ==> !evs[i].BalanceRead? && !evs[i].ReadFails?
    ensures Run(c, s, evs).poll == s.poll && Run(c, s, evs).jobs == [] && Inv(Run(c, s, evs))
  {
    hide Queue.Valid, Queue.Slots, Queue.SetCurrent, Queue.Put, Queue.PutAll, Queue.Take, Queue.Inner, Spaced;
    if |evs| > 0 {
      var init, ev := evs[..|evs| - 1], evs[|evs| - 1];
      Unasked(c, s, init);
      StepKeepsInv(c, Run(c, s, init), ev);
      assert !ev.BalanceRead? && !ev.ReadFails?;
    }
  }

  ghost predicate ArrivesFor(evs: seq<Event>, epoch: int) {
    exists i :: 0 <= i < |evs| && evs[i].RevealArrives? && evs[i].p.epochId == epoch
  }

  /**
   A roll is decided on an empty epoch, but the balance is read in between: when the
   roll goes out the epoch still holds no reveal if and only if none for it arrived
   meanwhile.
   */
  lemma {:induction false} RollFindsReveals(c: Config, s: State, evs: seq<Event>)
    requires Inv(s) && s.poll.AskingBalance? && Queue.Inner(s.queue, s.poll.epoch) == []
    requires forall i :: 0 <= i < |evs| ==> !evs[i].BalanceRead? && !evs[i].ReadFails?
    ensures
      var sent := Run(c, s, evs + [BalanceRead(false)]);
      && sent.jobs == [Rolling]
      && (Queue.Inner(sent.queue, s.poll.epoch) == [] <==> !ArrivesFor(evs, s.poll.epoch))
  {
    hide Run, ArrivesFor, Queue.Inner, Inv;
    Unasked(c, s, evs);
    ArrivalsFill(c, s, evs);
    RunLast(c, s, evs, BalanceRead(false));
  }

  /** Such an arrival can happen: the roll then closes an epoch that holds a reveal. */
  lemma RollCanMeetReveal(c: Config, p: Payload)
    requires c.clearing && c.rolling && c.balanceReader
    ensures
      var e := p.epochId;
      var s := Run(c, START, [Wake, EpochRead(e, 0), BlockRead(Some(0), ROLL_COOLDOWN + 1), RevealArrives(p),
                              BalanceRead(false)]);
      s.jobs == [Rolling] && Queue.Inner(s.queue, e) != []
  {
    var asked := Decide(c, START.(poll := AskingBlock(p.epochId, 0)), Some(0), ROLL_COOLDOWN + 1);
    var opening := [Wake, EpochRead(p.epochId, 0), BlockRead(Some(0), ROLL_COOLDOWN + 1)];
    RunOpening(c, p.epochId);
    RunIsExclusive(c, opening);
    RollFindsReveals(c, asked, [RevealArrives(p)]);
    assert [RevealArrives(p)][0].RevealArrives?;
    RunJoins(c, START, opening, [RevealArrives(p), BalanceRead(false)]);
    assert opening + [RevealArrives(p), BalanceRead(false)]
        == [Wake, EpochRead(p.epochId, 0), BlockRead(Some(0), ROLL_COOLDOWN + 1), RevealArrives(p), BalanceRead(false)];
  }

  lemma RunOpening(c: Config, e: int)
    ensures Run(c, START, [Wake, EpochRead(e, 0), BlockRead(Some(0), ROLL_COOLDOWN + 1)])
         == Decide(c, START.(poll := AskingBlock(e, 0)), Some(0), ROLL_COOLDOWN + 1)
  {
    hide Decide;
    RunLast(c, START, [Wake, EpochRead(e, 0)], BlockRead(Some(0), ROLL_COOLDOWN + 1));
    RunLast(c, START, [Wake], EpochRead(e, 0));
    RunLast(c, START, [], Wake);
    assert [Wake, EpochRead(e, 0)] + [BlockRead(Some(0), ROLL_COOLDOWN + 1)]
        == [Wake, EpochRead(e, 0), BlockRead(Some(0), ROLL_COOLDOWN + 1)];
    assert [Wake] + [EpochRead(e, 0)] == [Wake, EpochRead(e, 0)];
    assert [] + [Wake] == [Wake];
  }

  lemma {:induction false} RunJoins(c: Config, s: State, xs: seq<Event>, ys: seq<Event>)
    ensures Run(c, s, xs + ys) == Run(c, Run(c, s, xs), ys)
  {
    hide Step;
    if |ys| == 0 {
      assert xs + ys == xs;
    } else {
      RunJoins(c, s, xs, ys[..|ys| - 1]);
      assert (xs + ys)[..|xs + ys| - 1] == xs + ys[..|ys| - 1];
    }
  }

  lemma RunLast(c: Config, s: State, evs: seq<Event>, ev: Event)
    ensures Run(c, s, evs + [ev]) == Step(c, Run(c, s, evs), ev)
  {
    hide Step;
    assert (evs + [ev])[..|evs|] == evs;
  }

  lemma {:induction false} ArrivalsFill(c: Config, s: State, evs: seq<Event>)
    requires Inv(s) && s.poll.AskingBalance? && Queue.Inner(s.queue, s.poll.epoch) == []
    requires forall i :: 0 <= i < |evs| ==> !evs[i].BalanceRead? && !evs[i].ReadFails?
    ensures Queue.Inner(Run(c, s, evs).queue, s.poll.epoch) == [] <==> !ArrivesFor(evs, s.poll.epoch)
  {
    hide Queue.Valid, Queue.Slots, Queue.SetCurrent, Queue.PutAll, Queue.Take, Spaced;
    if |evs| > 0 {
      var init, ev := evs[..|evs| - 1], evs[|evs| - 1];
      ArrivalsFill(c, s, init);
      Unasked(c, s, init);
      ArrivesLast(init, ev, s.poll.epoch);
      assert init + [ev] == evs;
      assert !ev.BalanceRead? && !ev.ReadFails?;
    }
  }

  lemma ArrivesLast(init: seq<Event>, ev: Event, epoch: int)
    ensures ArrivesFor(init + [ev], epoch)
        <==> ArrivesFor(init, epoch) || (ev.RevealArrives? && ev.p.epochId == epoch)
  {
    var evs := init + [ev];
    if ev.RevealArrives? && ev.p.epochId == epoch {
      assert evs[|init|] == ev;
    }
    if ArrivesFor(init, epoch) {
      var i :| 0 <= i < |init| && init[i].RevealArrives? && init[i].p.epochId == epoch;
      assert evs[i] == init[i];
    }
    if ArrivesFor(evs, epoch) {
      var i :| 0 <= i < |evs| && evs[i].RevealArrives? && evs[i].p.epochId == epoch;
      assert i < |init| ==> init[i] == evs[i];
    }
  }

  /**
   A cycle that throws after its drain loses no reveal silently, whatever happened
   meanwhile: each drained nonce is queued again unless its epoch has left the window
   or is full.
   */
  lemma ThrownCycleKeepsReveals(c: Config, s: State, i: nat)
    requires Inv(s) && |s.jobs| == 1 && s.jobs[0].Working? && i < |s.jobs[0].drained|
    ensures
      var p, q := s.jobs[0].drained[i], Step(c, s, CycleThrows(0)).queue;
      || Queue.Holds(Queue.Inner(q, p.epochId), p.orderNonce)
      || (q.current.Some? && !Queue.Near(p.epochId, q.current.value))
      || |Queue.Inner(q, p.epochId)| >= Queue.MAX_PER_EPOCH
  {
    hide Queue.Valid, Queue.Inner, Queue.Holds;
    Queue.RequeueLosesNothing(s.queue, s.jobs[0].drained, i);
  }
}
