/**
 Per-bot task queues: jobs of one bot run one at a time in the order they came.
 */
module TaskQueues {
  import opened Lanes

  type Bot = string

  /** What can happen next: a caller enqueues, a worker takes a job or is done with it, or
      everything is shut down. A step that is not possible changes nothing. */
  datatype Action<Job> =
    | Enqueue(bot: Bot, job: Job)
    | TakeJob(bot: Bot)
    | EndJob(bot: Bot, ending: Ending)
    | Shutdown

  type State<Job> = map<Bot, Lane<Job>>

  function LaneOf<Job>(state: State<Job>, bot: Bot): Lane<Job> {
    if bot in state then state[bot] else Lane([], Absent)
  }

  /** A worker that is missing or has ended is started again, on the same queue. */
  function WithWorker<Job>(lane: Lane<Job>): Lane<Job> {
    if lane.consumer.Absent? || lane.consumer.Ended? then Lane(lane.queue, Idle) else lane
  }

  function Apply<Job>(state: State<Job>, action: Action<Job>): State<Job> {
    match action
    case Enqueue(bot, job) => state[bot := Push(WithWorker(LaneOf(state, bot)), job)]
    case TakeJob(bot) => if bot in state then state[bot := Take(state[bot])] else state
    case EndJob(bot, ending) => if bot in state then state[bot := Finish(state[bot], ending)] else state
    case Shutdown => map[]
  }

  function After<Job>(actions: seq<Action<Job>>): State<Job> {
    if actions == [] then map[] else Apply(After(actions[..|actions| - 1]), actions[|actions| - 1])
  }

  /** The jobs enqueued for a bot since the last shutdown. */
  function Enqueued<Job>(actions: seq<Action<Job>>, bot: Bot): seq<Job> {
    if actions == [] then []
    else
      var before := Enqueued(actions[..|actions| - 1], bot);
      match actions[|actions| - 1]
      case Enqueue(b, job) => if b == bot then before + [job] else before
      case Shutdown => []
      case TakeJob(_) => before
      case EndJob(_, _) => before
  }

  /** The jobs of a bot whose processing has ended, however it ended. */
  function Processed<Job>(actions: seq<Action<Job>>, bot: Bot): seq<Job> {
    if actions == [] then []
    else
      var before := Processed(actions[..|actions| - 1], bot);
      match actions[|actions| - 1]
      case Enqueue(_, _) => before
      case Shutdown => []
      case TakeJob(_) => before
      case EndJob(b, _) => if b == bot then before + InFlight(LaneOf(After(actions[..|actions| - 1]), bot)) else before
  }

  /** In every interleaving, what was enqueued for a bot is what has been processed, then the one
      job being processed, then the queue: nothing is lost, repeated or reordered. */
  lemma {:induction false} SerialFifo<Job>(actions: seq<Action<Job>>, bot: Bot)
    ensures Enqueued(actions, bot) == Processed(actions, bot) + Pending(LaneOf(After(actions), bot))
    decreases |actions|
  {
    if actions != [] {
      var before := actions[..|actions| - 1];
      SerialFifo(before, bot);
      StepMovesPending(After(before), actions[|actions| - 1], bot);
      hide Pending, Apply, InFlight, LaneOf;
      StaysInOrder(Processed(before, bot), Pending(LaneOf(After(before), bot)), actions[|actions| - 1],
                   InFlight(LaneOf(After(before), bot)), Pending(LaneOf(After(actions), bot)), bot);
    }
  }

  lemma StaysInOrder<Job>(processed: seq<Job>, pending: seq<Job>, action: Action<Job>, inFlight: seq<Job>,
                          next: seq<Job>, bot: Bot)
    ensures action.Enqueue? && action.bot == bot && next == pending + [action.job]
            ==> processed + next == processed + pending + [action.job]
    ensures action.EndJob? && pending == inFlight + next ==> processed + pending == processed + inFlight + next
    ensures next == [] ==> [] + next == []
  {}

  /** What one step does to the pending jobs of a bot. */
  lemma StepMovesPending<Job>(state: State<Job>, action: Action<Job>, bot: Bot)
    ensures var lane, next := LaneOf(state, bot), LaneOf(Apply(state, action), bot);
      match action
      case Enqueue(b, job) => Pending(next) == if b == bot then Pending(lane) + [job] else Pending(lane)
      case TakeJob(_) => Pending(next) == Pending(lane)
      case EndJob(b, _) => Pending(lane) == if b == bot then InFlight(lane) + Pending(next) else Pending(next)
      case Shutdown => Pending(next) == []
  {
    hide Pending, Take, Finish, Push, InFlight;
    var lane := LaneOf(state, bot);
    NothingPending<Job>();
    match action
    case Enqueue(b, job) =>
      PushAddsLast(WithWorker(lane), job);
      RestartKeepsPending(lane);
    case TakeJob(b) => TakeKeepsPending(lane);
    case EndJob(b, ending) => FinishDropsInFlight(lane, ending);
    case Shutdown =>
  }

  lemma RestartKeepsPending<Job>(lane: Lane<Job>)
    ensures Pending(WithWorker(lane)) == Pending(lane)
  {}

  lemma NothingPending<Job>()
    ensures var none := Lane<Job>.Lane([], Absent);
      Pending(none) == [] && InFlight(none) == [] && forall e :: Finish(none, e) == none
  {}

  // ---------------------------------------------------------------- bots do not affect each other

  predicate Concerns<Job>(action: Action<Job>, bot: Bot) { action.Shutdown? || action.bot == bot }

  function Only<Job>(actions: seq<Action<Job>>, bot: Bot): seq<Action<Job>> {
    if actions == [] then []
    else
      var last := actions[|actions| - 1];
      Only(actions[..|actions| - 1], bot) + if Concerns(last, bot) then [last] else []
  }

  /** A bot's lane is what it would be if the other bots did not exist. */
  lemma {:induction false} BotsAreIndependent<Job>(actions: seq<Action<Job>>, bot: Bot)
    ensures LaneOf(After(actions), bot) == LaneOf(After(Only(actions, bot)), bot)
    decreases |actions|
  {
    if actions != [] {
      var before, last := actions[..|actions| - 1], actions[|actions| - 1];
      BotsAreIndependent(before, bot);
      var mine := Only(before, bot);
      if Concerns(last, bot) {
        assert (mine + [last])[..|mine|] == mine;
        SameLaneSameStep(After(before), After(mine), last, bot);
      } else {
        assert Only(actions, bot) == mine;
      }
    }
  }

  lemma SameLaneSameStep<Job>(a: State<Job>, b: State<Job>, action: Action<Job>, bot: Bot)
    requires LaneOf(a, bot) == LaneOf(b, bot) && Concerns(action, bot)
    ensures LaneOf(Apply(a, action), bot) == LaneOf(Apply(b, action), bot)
  {}

  // ---------------------------------------------------------------- nothing gets stuck

  /** The worker goes through `n` more jobs, each ending as the function says. */
  function Work<Job>(bot: Bot, endings: seq<Ending>): seq<Action<Job>> {
    if endings == [] then []
    else Work(bot, endings[..|endings| - 1]) + [TakeJob(bot), EndJob(bot, endings[|endings| - 1])]
  }

  /** A running worker gets through everything that is queued, whichever jobs raise. */
  lemma {:induction false} RaisingJobsDoNotStopTheWorker<Job>(actions: seq<Action<Job>>, bot: Bot, endings: seq<Ending>)
    requires LaneOf(After(actions), bot).consumer.Idle? && |endings| <= |LaneOf(After(actions), bot).queue|
    requires forall e | e in endings :: !e.Cancelled?
    ensures LaneOf(After(actions + Work(bot, endings)), bot)
            == Lane(LaneOf(After(actions), bot).queue[|endings|..], Idle)
    ensures Processed(actions + Work(bot, endings), bot)
         == Processed(actions, bot) + LaneOf(After(actions), bot).queue[..|endings|]
    decreases |endings|
  {
    hide After, Processed, LaneOf, Work;
    var queue, n := LaneOf(After(actions), bot).queue, |endings|;
    WorkUnfolds(actions, bot, endings);
    if n > 0 {
      RaisingJobsDoNotStopTheWorker(actions, bot, endings[..n - 1]);
      OneJob(actions + Work<Job>(bot, endings[..n - 1]), bot, endings[n - 1]);
      NextOf(Processed(actions, bot), queue, n - 1);
    }
  }

  lemma {:induction false} WorkUnfolds<Job>(actions: seq<Action<Job>>, bot: Bot, endings: seq<Ending>)
    ensures var n := |endings|;
      actions + Work(bot, endings)
      == if n == 0 then actions else actions + Work(bot, endings[..n - 1]) + [TakeJob(bot), EndJob(bot, endings[n - 1])]
  {
    if |endings| > 0 {
      var front, last := Work<Job>(bot, endings[..|endings| - 1]), [TakeJob(bot), EndJob(bot, endings[|endings| - 1])];
      assert actions + (front + last) == actions + front + last;
    }
  }

  lemma NextOf<Job>(done: seq<Job>, queue: seq<Job>, n: nat)
    requires n < |queue|
    ensures queue[n..][1..] == queue[n + 1..] && done + queue[..n] + [queue[n..][0]] == done + queue[..n + 1]
  {}

  lemma OneJob<Job>(actions: seq<Action<Job>>, bot: Bot, ending: Ending)
    requires LaneOf(After(actions), bot).consumer.Idle? && LaneOf(After(actions), bot).queue != [] && !ending.Cancelled?
    ensures var more, lane := actions + [TakeJob(bot), EndJob(bot, ending)], LaneOf(After(actions), bot);
      && LaneOf(After(more), bot) == Lane(lane.queue[1..], Idle)
      && Processed(more, bot) == Processed(actions, bot) + [lane.queue[0]]
  {
    var taken := actions + [TakeJob(bot)];
    assert taken[..|actions|] == actions;
    var more := actions + [TakeJob(bot), EndJob(bot, ending)];
    assert more[..|taken|] == taken;
  }

  /** Whatever happened before, an enqueued job finds a worker: the one that is busy goes on, and any
      other is there and free. */
  lemma EnqueuedJobFindsWorker<Job>(actions: seq<Action<Job>>, bot: Bot, job: Job)
    ensures var lane, next := LaneOf(After(actions), bot), LaneOf(After(actions + [Enqueue(bot, job)]), bot);
      && next.queue == lane.queue + [job]
      && if lane.consumer.Busy? then next.consumer == Busy(lane.consumer.item) else next.consumer == Idle
  {
    AfterOneMore(actions, Enqueue(bot, job));
    hide After;
  }

  function Rest<Job>(lane: Lane<Job>, bot: Bot, ending: Ending): seq<Action<Job>> {
    if lane.consumer.Busy? then [EndJob(bot, ending)] else []
  }

  /** And it is processed, behind everything that was enqueued for the bot before, as soon as the worker has
      got through what is ahead of it, whichever jobs raise. */
  lemma EnqueuedJobIsProcessed<Job>(actions: seq<Action<Job>>, bot: Bot, job: Job, ending: Ending, endings: seq<Ending>)
    requires !ending.Cancelled? && forall e | e in endings :: !e.Cancelled?
    requires |endings| == |LaneOf(After(actions), bot).queue| + 1
    ensures var waiting := actions + [Enqueue(bot, job)] + Rest(LaneOf(After(actions), bot), bot, ending);
      Processed(waiting + Work(bot, endings), bot) == Enqueued(actions, bot) + [job]
  {
    hide After, Processed, LaneOf, Work, Enqueued;
    var lane, enqueued := LaneOf(After(actions), bot), actions + [Enqueue(bot, job)];
    var waiting := enqueued + Rest(lane, bot, ending);
    EnqueuedJobFindsWorker(actions, bot, job);
    WorkerGetsFree(enqueued, bot, ending);
    assert enqueued + [] == enqueued;
    RaisingJobsDoNotStopTheWorker(waiting, bot, endings);
    var all := waiting + Work<Job>(bot, endings);
    SerialFifo(all, bot);
    WorkEnqueuesNothing(waiting, bot, endings);
    EnqueuedOneMore(actions, bot, job, ending);
  }

  lemma WorkerGetsFree<Job>(actions: seq<Action<Job>>, bot: Bot, ending: Ending)
    requires !ending.Cancelled?
    ensures LaneOf(After(actions), bot).consumer.Busy? ==>
              LaneOf(After(actions + [EndJob(bot, ending)]), bot) == Lane(LaneOf(After(actions), bot).queue, Idle)
  {
    AfterOneMore(actions, EndJob(bot, ending));
    hide After;
  }

  lemma EnqueuedOneMore<Job>(actions: seq<Action<Job>>, bot: Bot, job: Job, ending: Ending)
    ensures Enqueued(actions + [Enqueue(bot, job)], bot) == Enqueued(actions, bot) + [job]
    ensures Enqueued(actions + [Enqueue(bot, job)] + [EndJob(bot, ending)], bot) == Enqueued(actions, bot) + [job]
  {
    assert (actions + [Enqueue(bot, job)])[..|actions|] == actions;
    var enqueued := actions + [Enqueue(bot, job)];
    assert (enqueued + [EndJob(bot, ending)])[..|enqueued|] == enqueued;
  }

  lemma {:induction false} WorkEnqueuesNothing<Job>(actions: seq<Action<Job>>, bot: Bot, endings: seq<Ending>)
    ensures Enqueued(actions + Work(bot, endings), bot) == Enqueued(actions, bot)
    decreases |endings|
  {
    hide Work;
    WorkUnfolds(actions, bot, endings);
    if endings != [] {
      var front, ending := endings[..|endings| - 1], endings[|endings| - 1];
      WorkEnqueuesNothing(actions, bot, front);
      var before := actions + Work<Job>(bot, front);
      assert (before + [TakeJob(bot)])[..|before|] == before;
      assert (before + [TakeJob(bot), EndJob(bot, ending)])[..|before| + 1] == before + [TakeJob(bot)];
    }
  }

  /** A cancelled job ends its worker: until the next job is enqueued for the bot nothing more is
      processed, and what is queued stays queued. */
  lemma {:induction false} CancelledWorkerWaits<Job>(actions: seq<Action<Job>>, bot: Bot, more: seq<Action<Job>>)
    requires LaneOf(After(actions), bot).consumer.Busy?
    requires forall i | 0 <= i < |more| :: !more[i].Shutdown? && !(more[i].Enqueue? && more[i].bot == bot)
    ensures var lane, all := LaneOf(After(actions), bot), actions + [EndJob(bot, Cancelled)] + more;
      && LaneOf(After(all), bot) == Lane(lane.queue, Ended)
      && Processed(all, bot) == Processed(actions, bot) + [lane.consumer.item]
    decreases |more|
  {
    hide After, Processed;
    var cancelled := actions + [EndJob(bot, Cancelled)];
    if more == [] {
      assert cancelled + more == cancelled;
      AfterOneMore(actions, EndJob(bot, Cancelled));
      ProcessedOneMore(actions, EndJob(bot, Cancelled), bot);
    } else {
      var front, last := more[..|more| - 1], more[|more| - 1];
      CancelledWorkerWaits(actions, bot, front);
      assert cancelled + more == cancelled + front + [last];
      AfterOneMore(cancelled + front, last);
      ProcessedOneMore(cancelled + front, last, bot);
    }
  }

  lemma ProcessedOneMore<Job>(actions: seq<Action<Job>>, action: Action<Job>, bot: Bot)
    requires !action.Shutdown?
    ensures Processed(actions + [action], bot)
         == Processed(actions, bot)
            + if action.EndJob? && action.bot == bot then InFlight(LaneOf(After(actions), bot)) else []
  {
    hide After;
    assert (actions + [action])[..|actions|] == actions;
  }

  // ---------------------------------------------------------------- the manager

  lemma AfterOneMore<Job>(actions: seq<Action<Job>>, action: Action<Job>)
    ensures After(actions + [action]) == Apply(After(actions), action)
  {
    assert (actions + [action])[..|actions|] == actions;
  }

  class TaskQueueManager<Job> {
    var lanes: State<Job>
    ghost var actions: seq<Action<Job>>

    ghost predicate Valid() reads this { lanes == After(actions) }

    constructor ()
      ensures Valid() && actions == []
    {
      lanes, actions := map[], [];
    }

    method EnsureWorker(bot: Bot)
      modifies this`lanes
      ensures lanes == old(lanes)[bot := WithWorker(LaneOf(old(lanes), bot))]
    {
      var lane := LaneOf(lanes, bot);
      if lane.consumer.Idle? || lane.consumer.Busy? {
        lanes := lanes[bot := lane];
        return;
      }
      lanes := lanes[bot := Lane(lane.queue, Idle)];
    }

    /** Appends a job and answers how long the queue is now; a job being processed is not counted. */
    method EnqueueJob(bot: Bot, job: Job) returns (position: nat)
      requires Valid()
      modifies this
      ensures Valid() && actions == old(actions) + [Enqueue(bot, job)]
      ensures position == |LaneOf(lanes, bot).queue| && position > 0
    {
      hide After;
      AfterOneMore(actions, Enqueue(bot, job));
      EnsureWorker(bot);
      var pendingBefore := |lanes[bot].queue|;
      lanes := lanes[bot := Push(lanes[bot], job)];
      actions := actions + [Enqueue(bot, job)];
      position := pendingBefore + 1;
    }

    /** One round of the worker's loop, as far as it can go without waiting: it takes the next
        job if it is free, or ends the job it is on. */
    method WorkerStep(bot: Bot, ending: Ending)
      requires Valid()
      modifies this
      ensures Valid()
      ensures actions == old(actions)
              + [if LaneOf(old(lanes), bot).consumer.Busy? then EndJob(bot, ending) else TakeJob(bot)]
    {
      hide After;
      ghost var action := if LaneOf(lanes, bot).consumer.Busy? then EndJob(bot, ending) else TakeJob(bot);
      AfterOneMore(actions, action);
      if bot in lanes {
        var lane := lanes[bot];
        match lane.consumer
        case Busy(_) =>
          lanes := lanes[bot := Lane(lane.queue, if ending.Cancelled? then Ended else Idle)];
        case Idle =>
          if lane.queue != [] {
            lanes := lanes[bot := Lane(lane.queue[1..], Busy(lane.queue[0]))];
          }
        case Absent =>
        case Ended =>
      }
      actions := actions + [action];
      if bot in old(lanes) {
        assert old(lanes) == old(lanes)[bot := old(lanes)[bot]];
      }
    }

    method ShutdownAll()
      requires Valid()
      modifies this
      ensures Valid() && actions == old(actions) + [Shutdown] && lanes == map[]
    {
      AfterOneMore(actions, Shutdown);
      lanes, actions := map[], actions + [Shutdown];
    }
  }
}
