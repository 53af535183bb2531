/**
 Inbound sessions: one bounded queue and one dispatcher for each connected client.
 */
module Sessions {
  import opened Lanes

  type Client = string

  datatype Action<Message> =
    | Start(client: Client)
    | Stop(client: Client)
    | Submit(client: Client, message: Message)
    | TakeMessage(client: Client)
    | EndMessage(client: Client, ending: Ending)
    | StopAll

  type State<Message> = map<Client, Lane<Message>>

  function Capacity(maxSize: int): nat { if maxSize < 1 then 1 else maxSize }

  /** A message is accepted when its client has a session whose queue is not full. */
  predicate Accepts<Message>(state: State<Message>, maxSize: int, client: Client) {
    client in state && |state[client].queue| < Capacity(maxSize)
  }

  function Apply<Message>(state: State<Message>, maxSize: int, action: Action<Message>): State<Message> {
    match action
    case Start(client) => state[client := Lane([], Idle)]
    case Stop(client) => state - {client}
    case Submit(client, message) =>
      if Accepts(state, maxSize, client) then state[client := Push(state[client], message)] else state
    case TakeMessage(client) => if client in state then state[client := Take(state[client])] else state
    case EndMessage(client, ending) => if client in state then state[client := Finish(state[client], ending)] else state
    case StopAll => map[]
  }

  function After<Message>(maxSize: int, actions: seq<Action<Message>>): State<Message> {
    if actions == [] then map[]
    else Apply(After(maxSize, actions[..|actions| - 1]), maxSize, actions[|actions| - 1])
  }

  predicate Ends<Message>(action: Action<Message>, client: Client) {
    match action
    case Start(c) => c == client
    case Stop(c) => c == client
    case StopAll => true
    case Submit(_, _) => false
    case TakeMessage(_) => false
    case EndMessage(_, _) => false
  }

  /** The messages of the client's present session that were accepted. */
  function Accepted<Message>(maxSize: int, actions: seq<Action<Message>>, client: Client): seq<Message> {
    if actions == [] || Ends(actions[|actions| - 1], client) then []
    else
      var before, last := actions[..|actions| - 1], actions[|actions| - 1];
      Accepted(maxSize, before, client)
      + if last.Submit? && last.client == client
          && Accepts(After(maxSize, before), maxSize, client) then [last.message] else []
  }

  function PendingOf<Message>(state: State<Message>, client: Client): seq<Message> {
    if client in state then Pending(state[client]) else []
  }

  function InFlightOf<Message>(state: State<Message>, client: Client): seq<Message> {
    if client in state then InFlight(state[client]) else []
  }

  /** The messages of the present session whose handler has returned or raised. */
  function Handled<Message>(maxSize: int, actions: seq<Action<Message>>, client: Client): seq<Message> {
    if actions == [] || Ends(actions[|actions| - 1], client) then []
    else
      var before, last := actions[..|actions| - 1], actions[|actions| - 1];
      Handled(maxSize, before, client)
      + if last.EndMessage? && last.client == client then InFlightOf(After(maxSize, before), client) else []
  }

  lemma StepKeepsBound<Message>(state: State<Message>, maxSize: int, action: Action<Message>, client: Client)
    requires client in state ==> |state[client].queue| <= Capacity(maxSize)
    ensures var next := Apply(state, maxSize, action);
      client in next ==> |next[client].queue| <= Capacity(maxSize)
  {}

  lemma StepMovesPending<Message>(state: State<Message>, maxSize: int, action: Action<Message>, client: Client)
    requires !Ends(action, client)
    ensures var arrived := if action.Submit? && action.client == client
            && Accepts(state, maxSize, client) then [action.message] else [];
      var left := if action.EndMessage? && action.client == client then InFlightOf(state, client) else [];
      PendingOf(state, client) + arrived == left + PendingOf(Apply(state, maxSize, action), client)
  {
    hide Pending, Take, Finish, Push, InFlight;
    if client in state {
      TakeKeepsPending(state[client]);
      match action
      case Submit(c, message) => PushAddsLast(state[client], message);
      case EndMessage(c, ending) => FinishDropsInFlight(state[client], ending);
      case Start(_) =>
      case Stop(_) =>
      case TakeMessage(_) =>
      case StopAll =>
    }
  }

  /** In every interleaving with starts and stops, what the present session accepted is what has been
      handled, then the message in the handler, then the queue; and the queue keeps to its bound. */
  lemma {:induction false} SessionIsFifoAndBounded<Message>(maxSize: int, actions: seq<Action<Message>>, client: Client)
    ensures var state := After(maxSize, actions);
      && Accepted(maxSize, actions, client) == Handled(maxSize, actions, client) + PendingOf(state, client)
      && (client in state ==> |state[client].queue| <= Capacity(maxSize))
      && (client in state && maxSize >= 1 ==> |state[client].queue| <= maxSize)
      && (client in state && maxSize < 1 ==> |state[client].queue| <= 1)
    decreases |actions|
  {
    if actions != [] {
      var before, last := actions[..|actions| - 1], actions[|actions| - 1];
      SessionIsFifoAndBounded(maxSize, before, client);
      var state := After(maxSize, before);
      StepKeepsBound(state, maxSize, last, client);
      if Ends(last, client) {
        EndedIsEmpty(state, maxSize, last, client);
      } else {
        StepMovesPending(state, maxSize, last, client);
        hide Apply, PendingOf, InFlightOf, Accepts, Ends;
        MovedInOrder(Accepted(maxSize, before, client), Handled(maxSize, before, client), PendingOf(state, client),
                     if last.Submit? && last.client == client
                         && Accepts(state, maxSize, client) then [last.message] else [],
                     if last.EndMessage? && last.client == client then InFlightOf(state, client) else [],
                     PendingOf(Apply(state, maxSize, last), client));
      }
    }
  }

  lemma MovedInOrder<Message>(accepted: seq<Message>, handled: seq<Message>, pending: seq<Message>,
                              arrived: seq<Message>, left: seq<Message>, next: seq<Message>)
    requires accepted == handled + pending && pending + arrived == left + next
    ensures accepted + arrived == handled + left + next
  {
    assert handled + pending + arrived == handled + (pending + arrived);
    assert handled + (left + next) == handled + left + next;
  }

  lemma EndedIsEmpty<Message>(state: State<Message>, maxSize: int, action: Action<Message>, client: Client)
    requires Ends(action, client)
    ensures PendingOf(Apply(state, maxSize, action), client) == []
  {}

  // ---------------------------------------------------------------- handlers that raise, or are cancelled

  /** The dispatcher goes through so many messages, each handler ending as given. */
  function Work<Message>(client: Client, endings: seq<Ending>): seq<Action<Message>> {
    if endings == [] then []
    else Work(client, endings[..|endings| - 1]) + [TakeMessage(client), EndMessage(client, endings[|endings| - 1])]
  }

  ghost predicate Free<Message>(state: State<Message>, client: Client) {
    client in state && state[client].consumer.Idle?
  }

  /** A dispatcher gets through everything that is queued, whichever handlers raise. */
  lemma {:induction false} RaisingHandlersDoNotStopTheDispatcher<Message>(maxSize: int, actions: seq<Action<Message>>,
                                                                          client: Client, endings: seq<Ending>)
    requires Free(After(maxSize, actions), client) && |endings| <= |After(maxSize, actions)[client].queue|
    requires forall e | e in endings :: !e.Cancelled?
    ensures var before, after := After(maxSize, actions), After(maxSize, actions + Work(client, endings));
      && client in after && after[client] == Lane(before[client].queue[|endings|..], Idle)
      && Handled(maxSize, actions + Work(client, endings), client)
         == Handled(maxSize, actions, client) + before[client].queue[..|endings|]
    decreases |endings|
  {
    hide After, Handled, Work;
    var queue, n := After(maxSize, actions)[client].queue, |endings|;
    WorkUnfolds(actions, client, endings);
    if n > 0 {
      RaisingHandlersDoNotStopTheDispatcher(maxSize, actions, client, endings[..n - 1]);
      OneMessage(maxSize, actions + Work<Message>(client, endings[..n - 1]), client, endings[n - 1]);
      NextOf(Handled(maxSize, actions, client), queue, n - 1);
    }
  }

  lemma {:induction false} WorkUnfolds<Message>(actions: seq<Action<Message>>, client: Client, endings: seq<Ending>)
    ensures var n := |endings|;
      actions + Work(client, endings)
      == if n == 0 then actions
         else actions + Work(client, endings[..n - 1]) + [TakeMessage(client), EndMessage(client, endings[n - 1])]
  {
    if |endings| > 0 {
      var front := Work<Message>(client, endings[..|endings| - 1]);
      var last := [TakeMessage(client), EndMessage(client, endings[|endings| - 1])];
      assert actions + (front + last) == actions + front + last;
    }
  }

  lemma OneMessage<Message>(maxSize: int, actions: seq<Action<Message>>, client: Client, ending: Ending)
    requires Free(After(maxSize, actions), client) && After(maxSize, actions)[client].queue != [] && !ending.Cancelled?
    ensures var more, lane := actions
            + [TakeMessage(client), EndMessage(client, ending)], After(maxSize, actions)[client];
      && client in After(maxSize, more) && After(maxSize, more)[client] == Lane(lane.queue[1..], Idle)
      && Handled(maxSize, more, client) == Handled(maxSize, actions, client) + [lane.queue[0]]
  {
    var taken := actions + [TakeMessage(client)];
    assert taken[..|actions|] == actions;
    var more := actions + [TakeMessage(client), EndMessage(client, ending)];
    assert more[..|taken|] == taken;
  }

  /** What is sent to a client, whether it is accepted or not. */
  function Submitted<Message>(actions: seq<Action<Message>>, client: Client): seq<Message> {
    if actions == [] then []
    else
      var last := actions[|actions| - 1];
      Submitted(actions[..|actions| - 1], client) + if last.Submit? && last.client == client then [last.message] else []
  }

  function FirstOf<Message>(messages: seq<Message>, n: nat): seq<Message> {
    if |messages| <= n then messages else messages[..n]
  }

  /** Once a handler has been cancelled the dispatcher is gone, but the session is not: until the client is
      started or stopped it accepts messages up to its capacity, and handles none of them. */
  lemma {:induction false} CancelledSessionOnlyFills<Message>(maxSize: int, actions: seq<Action<Message>>,
                                                              more: seq<Action<Message>>, client: Client)
    requires client in After(maxSize, actions) && After(maxSize, actions)[client].consumer.Ended?
    requires |After(maxSize, actions)[client].queue| <= Capacity(maxSize)
    requires forall i | 0 <= i < |more| :: !Ends(more[i], client)
    ensures var before, after := After(maxSize, actions), After(maxSize, actions + more);
      && client in after
      && after[client] == Lane(FirstOf(before[client].queue + Submitted(more, client), Capacity(maxSize)), Ended)
      && Handled(maxSize, actions + more, client) == Handled(maxSize, actions, client)
    decreases |more|
  {
    hide After, Handled, Apply, Submitted, Ends, Capacity;
    var queue := After(maxSize, actions)[client].queue;
    if more == [] {
      assert actions + more == actions;
      NothingSubmitted<Message>(client);
      assert queue + [] == queue;
    } else {
      var front, last := more[..|more| - 1], more[|more| - 1];
      assert actions + more == actions + front + [last];
      CancelledSessionOnlyFills(maxSize, actions, front, client);
      AfterOneMore(maxSize, actions + front, last);
      EndedStep(maxSize, After(maxSize, actions + front), last, client);
      HandledOneMore(maxSize, actions + front, last, client);
      SubmittedOneMore(more, client);
      var sent := queue + Submitted(front, client);
      if last.Submit? && last.client == client {
        FillsOneMore(sent, Capacity(maxSize), last.message);
        assert queue + (Submitted(front, client) + [last.message]) == sent + [last.message];
      } else {
        assert Submitted(front, client) + [] == Submitted(front, client);
      }
    }
  }

  /** So after a handler that is cancelled: the message counts as handled, and then no other is, while a queue
      of the given size, or of one when that is less than one, fills up. */
  lemma CancelledHandlerEndsDispatcher<Message>(maxSize: int, actions: seq<Action<Message>>,
                                                more: seq<Action<Message>>, client: Client)
    requires client in After(maxSize, actions) && After(maxSize, actions)[client].consumer.Busy?
    requires forall i | 0 <= i < |more| :: !Ends(more[i], client)
    ensures var lane, all := After(maxSize, actions)[client], actions + [EndMessage(client, Cancelled)] + more;
      && client in After(maxSize, all)
      && After(maxSize, all)[client]
         == Lane(FirstOf(lane.queue + Submitted(more, client), if maxSize < 1 then 1 else maxSize), Ended)
      && Handled(maxSize, all, client) == Handled(maxSize, actions, client) + [lane.consumer.item]
  {
    var cancelled := actions + [EndMessage(client, Cancelled)];
    assert cancelled[..|actions|] == actions;
    SessionIsFifoAndBounded(maxSize, cancelled, client);
    CancelledSessionOnlyFills(maxSize, cancelled, more, client);
    hide After, Handled, Submitted, Ends;
  }

  // ---------------------------------------------------------------- a started session is served

  /** A handler of the client is cancelled. */
  predicate Cancels<Message>(action: Action<Message>, client: Client) {
    action.EndMessage? && action.client == client && action.ending == Cancelled
  }

  /** From its start on, until a handler is cancelled, a session has a dispatcher that is free or busy. */
  lemma {:induction false} StartedSessionHasDispatcher<Message>(maxSize: int, actions: seq<Action<Message>>,
                                                                more: seq<Action<Message>>, client: Client)
    requires forall i | 0 <= i < |more| :: !Ends(more[i], client) && !Cancels(more[i], client)
    ensures var state := After(maxSize, actions + [Start(client)] + more);
      client in state && (state[client].consumer.Idle? || state[client].consumer.Busy?)
    decreases |more|
  {
    hide After, Ends, Cancels;
    var started := actions + [Start(client)];
    if more == [] {
      assert started + more == started;
      AfterOneMore(maxSize, actions, Start(client));
    } else {
      var front, last := more[..|more| - 1], more[|more| - 1];
      StartedSessionHasDispatcher(maxSize, actions, front, client);
      assert started + more == started + front + [last];
      AfterOneMore(maxSize, started + front, last);
      DispatcherStays(maxSize, After(maxSize, started + front), last, client);
    }
  }

  lemma DispatcherStays<Message>(maxSize: int, state: State<Message>, action: Action<Message>, client: Client)
    requires client in state && (state[client].consumer.Idle? || state[client].consumer.Busy?)
    requires !Ends(action, client) && !Cancels(action, client)
    ensures var next := Apply(state, maxSize, action);
      client in next && (next[client].consumer.Idle? || next[client].consumer.Busy?)
  {}

  function Rest<Message>(lane: Lane<Message>, client: Client, ending: Ending): seq<Action<Message>> {
    if lane.consumer.Busy? then [EndMessage(client, ending)] else []
  }

  /** And everything the session has accepted is handled, in order, once the dispatcher has got through
      its queue, whichever handlers raise. */
  lemma StartedSessionIsServed<Message>(maxSize: int, actions: seq<Action<Message>>, more: seq<Action<Message>>,
                                        client: Client, ending: Ending, endings: seq<Ending>)
    requires forall i | 0 <= i < |more| :: !Ends(more[i], client) && !Cancels(more[i], client)
    requires !ending.Cancelled? && forall e | e in endings :: !e.Cancelled?
    requires var state := After(maxSize, actions + [Start(client)] + more);
      client in state ==> |endings| == |state[client].queue|
    ensures var started := actions + [Start(client)] + more;
      && client in After(maxSize, started)
      && Handled(maxSize, started + Rest(After(maxSize, started)[client], client, ending) + Work(client, endings),
             client)
         == Accepted(maxSize, started, client)
  {
    hide After, Handled, Ends, Cancels, Work, Accepted, Pending;
    var started := actions + [Start(client)] + more;
    StartedSessionHasDispatcher(maxSize, actions, more, client);
    var lane := After(maxSize, started)[client];
    SessionIsFifoAndBounded(maxSize, started, client);
    DispatcherGetsFree(maxSize, started, client, ending);
    var free := started + Rest(lane, client, ending);
    assert started + [] == started;
    RaisingHandlersDoNotStopTheDispatcher(maxSize, free, client, endings);
    PendingMeans(lane);
    assert lane.queue[..|endings|] == lane.queue;
    assert Handled(maxSize, started, client) + (InFlight(lane) + lane.queue)
        == Handled(maxSize, started, client) + InFlight(lane) + lane.queue;
  }

  lemma PendingMeans<Message>(lane: Lane<Message>)
    ensures Pending(lane) == InFlight(lane) + lane.queue
  {}

  lemma DispatcherGetsFree<Message>(maxSize: int, actions: seq<Action<Message>>, client: Client, ending: Ending)
    requires client in After(maxSize, actions) && !ending.Cancelled?
    requires var c := After(maxSize, actions)[client].consumer; c.Idle? || c.Busy?
    ensures var lane := After(maxSize, actions)[client];
      var free := actions + Rest(lane, client, ending);
      && Free(After(maxSize, free), client) && After(maxSize, free)[client].queue == lane.queue
      && Handled(maxSize, free, client) == Handled(maxSize, actions, client) + InFlight(lane)
  {
    var lane := After(maxSize, actions)[client];
    if lane.consumer.Busy? {
      assert (actions + [EndMessage(client, ending)])[..|actions|] == actions;
    } else {
      assert actions + [] == actions;
    }
  }

  lemma NothingSubmitted<Message>(client: Client)
    ensures Submitted<Message>([], client) == []
  {}

  lemma SubmittedOneMore<Message>(more: seq<Action<Message>>, client: Client)
    requires more != []
    ensures var last := more[|more| - 1];
      Submitted(more, client)
      == Submitted(more[..|more| - 1], client) + if last.Submit? && last.client == client then [last.message] else []
  {}

  lemma HandledOneMore<Message>(maxSize: int, actions: seq<Action<Message>>, action: Action<Message>, client: Client)
    requires client in After(maxSize, actions) && After(maxSize, actions)[client].consumer.Ended?
             && !Ends(action, client)
    ensures Handled(maxSize, actions + [action], client) == Handled(maxSize, actions, client)
  {
    hide After, Ends;
    assert (actions + [action])[..|actions|] == actions;
  }

  lemma EndedStep<Message>(maxSize: int, state: State<Message>, action: Action<Message>, client: Client)
    requires client in state && state[client].consumer.Ended? && !Ends(action, client)
    ensures var next := Apply(state, maxSize, action);
      client in next && next[client] ==
        if action.Submit? && action.client == client && |state[client].queue| < Capacity(maxSize)
        then Lane(state[client].queue + [action.message], Ended) else state[client]
  {
    hide Capacity;
  }

  lemma FillsOneMore<Message>(messages: seq<Message>, n: nat, message: Message)
    ensures FirstOf(messages + [message], n)
         == if |FirstOf(messages, n)| < n then FirstOf(messages, n) + [message] else FirstOf(messages, n)
  {}

  lemma NextOf<Message>(done: seq<Message>, queue: seq<Message>, n: nat)
    requires n < |queue|
    ensures queue[n..][1..] == queue[n + 1..] && done + queue[..n] + [queue[n..][0]] == done + queue[..n + 1]
  {}

  lemma AfterOneMore<Message>(maxSize: int, actions: seq<Action<Message>>, action: Action<Message>)
    ensures After(maxSize, actions + [action]) == Apply(After(maxSize, actions), maxSize, action)
  {
    assert (actions + [action])[..|actions|] == actions;
  }

  class SessionRuntime<Message> {
    const maxSize: int
    var sessions: State<Message>
    ghost var actions: seq<Action<Message>>

    ghost predicate Valid() reads this { sessions == After(maxSize, actions) }

    constructor (maxSize: int)
      ensures Valid() && actions == [] && this.maxSize == maxSize
    {
      this.maxSize := maxSize;
      sessions, actions := map[], [];
    }

    /** Ends the client's session, if there is one, and drops what it had not handled. */
    method StopClient(client: Client)
      requires Valid()
      modifies this
      ensures Valid() && actions == old(actions) + [Stop(client)] && client !in sessions
    {
      AfterOneMore(maxSize, actions, Stop(client));
      sessions, actions := sessions - {client}, actions + [Stop(client)];
    }

    /** A client that starts again gets a fresh session. */
    method StartClient(client: Client)
      requires Valid()
      modifies this
      ensures Valid() && actions == old(actions) + [Stop(client), Start(client)]
      ensures client in sessions && sessions[client] == Lane([], Idle)
    {
      StopClient(client);
      AfterOneMore(maxSize, actions, Start(client));
      assert old(actions) + [Stop(client)] + [Start(client)] == old(actions) + [Stop(client), Start(client)];
      sessions, actions := sessions[client := Lane([], Idle)], actions + [Start(client)];
    }

    /** Queues a message, or answers false and changes nothing. */
    method SubmitMessage(client: Client, message: Message) returns (accepted: bool)
      requires Valid()
      modifies this
      ensures Valid() && actions == old(actions) + [Submit(client, message)]
      ensures accepted == Accepts(old(sessions), maxSize, client)
      ensures accepted <==> client in old(sessions)
                            && (|old(sessions)[client].queue| < maxSize || old(sessions)[client].queue == [])
      ensures sessions == if accepted then old(sessions)[client := Push(old(sessions)[client], message)]
              else old(sessions)
    {
      AfterOneMore(maxSize, actions, Submit(client, message));
      actions := actions + [Submit(client, message)];
      if client !in sessions || |sessions[client].queue| >= Capacity(maxSize) {
        return false;
      }
      sessions := sessions[client := Push(sessions[client], message)];
      accepted := true;
    }

    /** One round of the dispatch loop, as far as it can go without waiting. */
    method DispatchStep(client: Client, ending: Ending)
      requires Valid() && client in sessions
      modifies this
      ensures Valid()
      ensures actions == old(actions)
              + [if old(sessions)[client].consumer.Busy? then EndMessage(client, ending) else TakeMessage(client)]
    {
      hide After;
      var lane := sessions[client];
      ghost var action := if lane.consumer.Busy? then EndMessage(client, ending) else TakeMessage(client);
      AfterOneMore(maxSize, actions, action);
      if lane.consumer.Busy? {
        sessions := sessions[client := Lane(lane.queue, if ending.Cancelled? then Ended else Idle)];
      } else if lane.consumer.Idle? && lane.queue != [] {
        sessions := sessions[client := Lane(lane.queue[1..], Busy(lane.queue[0]))];
      } else {
        assert sessions[client := lane] == sessions;
      }
      actions := actions + [action];
    }

    method ShutdownAll()
      requires Valid()
      modifies this
      ensures Valid() && actions == old(actions) + [StopAll] && sessions == map[]
    {
      AfterOneMore(maxSize, actions, StopAll);
      sessions, actions := map[], actions + [StopAll];
    }
  }
}
