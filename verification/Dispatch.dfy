/**
 * Routing decoded blocks to clients (src/receive/dispatch.rs).
 *
 * `Trace` says, by looking only at the list of events, what each queue must contain. The dispatcher
 * itself works on two maps of live queues; its invariant is that the queues are exactly those traces.
 */
module Dispatch {
  import opened Protocol

  /**
   * What can happen to the dispatcher: a decoded block arrives, synchronisation is reported lost, the
   * client worker of queue `q` stops receiving, or it takes the next block from its queue.
   */
  datatype Event = Incoming(m: Message) | Lost | Gone(q: nat) | Taken(q: nat)

  /** A client queue: its client, everything ever sent to it, and whether more can still be sent. */
  datatype Queue = Queue(client: ClientId, blocks: seq<Message>, open: bool)

  function AbortBlock(client: ClientId): Message {
    Message(Abort, client, [])
  }

  predicate Routable(m: Message) {
    !m.kind.Heartbeat? && !m.kind.Unknown?
  }

  predicate Terminal(m: Message) {
    m.kind.Abort? || m.kind.End?
  }

  predicate Starts(e: Event) {
    e.Incoming? && e.m.kind.Start?
  }

  // ---------------------------------------------------------------------------------------------
  // What the queues must contain
  // ---------------------------------------------------------------------------------------------

  /** Queue number `j` after one more event. */
  function Extend(queue: Queue, j: nat, e: Event): Queue {
    if !queue.open then queue else
    match e
    case Lost => queue.(blocks := queue.blocks + [AbortBlock(queue.client)], open := false)
    case Gone(q) => if q == j then queue.(open := false) else queue
    case Taken(_) => queue
    case Incoming(m) =>
      if m.client != queue.client || !Routable(m) then queue
      else if m.kind.Start? then queue.(open := false)
      else queue.(blocks := queue.blocks + [m], open := !Terminal(m))
  }

  function ExtendAll(queues: seq<Queue>, e: Event): (r: seq<Queue>)
    ensures |r| == |queues|
  {
    seq(|queues|, j requires 0 <= j < |queues| => Extend(queues[j], j, e))
  }

  /** All queues after a list of events: one for every start block, in order. */
  function Trace(events: seq<Event>): seq<Queue> {
    if events == [] then [] else
    var e := events[|events| - 1];
    Grown(Trace(events[..|events| - 1]), e)
  }

  function Grown(trace: seq<Queue>, e: Event): seq<Queue> {
    ExtendAll(trace, e) + if Starts(e) then [Queue(e.m.client, [e.m], true)] else []
  }

  lemma TraceSnoc(events: seq<Event>, e: Event)
    ensures Trace(events + [e]) == Grown(Trace(events), e)
  {
    assert (events + [e])[..|events|] == events;
  }

  // ---------------------------------------------------------------------------------------------
  // The worker
  // ---------------------------------------------------------------------------------------------

  /** The dispatcher's maps and queues are those of the trace; the open queues are the active live ones. */
  ghost predicate Routes(
    trace: seq<Queue>, clients: seq<ClientId>, sent: seq<seq<Message>>, active: map<ClientId, nat>, gone: set<nat>)
  {
    && |clients| == |sent| == |trace|
    && (forall j :: 0 <= j < |trace| ==> trace[j].client == clients[j] && trace[j].blocks == sent[j])
    && (forall j :: 0 <= j < |trace| ==>
          (trace[j].open <==> clients[j] in active && active[clients[j]] == j && j !in gone))
    && (forall c :: c in active ==> active[c] < |trace| && clients[active[c]] == c)
    && (forall q :: q in gone ==> q < |trace|)
  }

  /** The active queues outside `todo` have received their abort block. */
  ghost predicate Aborted(
    clients: seq<ClientId>, before: seq<seq<Message>>, after: seq<seq<Message>>, active: map<ClientId, nat>,
    gone: set<nat>, todo: set<ClientId>)
  {
    && |before| == |after| == |clients|
    && forall j: nat :: j < |after| ==>
         after[j] == if j !in gone && clients[j] in active && active[clients[j]] == j && clients[j] !in todo
                     then before[j] + [AbortBlock(clients[j])] else before[j]
  }

  lemma AbortOne(
    clients: seq<ClientId>, before: seq<seq<Message>>, after: seq<seq<Message>>, active: map<ClientId, nat>,
    gone: set<nat>, todo: set<ClientId>, c: ClientId)
    requires Aborted(clients, before, after, active, gone, todo) && c in todo && c in active
    requires forall d :: d in active ==> active[d] < |clients| && clients[active[d]] == d
    ensures var q := active[c];
            Aborted(clients, before, if q in gone then after else after[q := after[q] + [AbortBlock(c)]],
                    active, gone, todo - {c})
  {}

  lemma LostRoutes(
    trace: seq<Queue>, clients: seq<ClientId>, sent: seq<seq<Message>>, after: seq<seq<Message>>,
    active: map<ClientId, nat>, gone: set<nat>)
    requires Routes(trace, clients, sent, active, gone) && Aborted(clients, sent, after, active, gone, {})
    ensures Routes(Grown(trace, Lost), clients, after, map[], gone)
  {}

  /** A block that no queue receives. */
  lemma DropRoutes(
    trace: seq<Queue>, clients: seq<ClientId>, sent: seq<seq<Message>>, active: map<ClientId, nat>, gone: set<nat>,
    m: Message)
    requires Routes(trace, clients, sent, active, gone)
    requires Routable(m) ==> !m.kind.Start? && m.client !in active
    ensures Routes(Grown(trace, Incoming(m)), clients, sent, active, gone)
  {}

  /** A start block opens a queue, and ends an earlier transfer of the same client. */
  lemma StartRoutes(
    trace: seq<Queue>, clients: seq<ClientId>, sent: seq<seq<Message>>, active: map<ClientId, nat>, gone: set<nat>,
    m: Message)
    requires Routes(trace, clients, sent, active, gone) && m.kind.Start?
    ensures Routes(Grown(trace, Incoming(m)), clients + [m.client], sent + [[m]], active[m.client := |sent|], gone)
  {}

  /** Any other block of an active client: what happens depends on whether its worker still receives. */
  lemma SendRoutes(
    trace: seq<Queue>, clients: seq<ClientId>, sent: seq<seq<Message>>, active: map<ClientId, nat>, gone: set<nat>,
    m: Message)
    requires Routes(trace, clients, sent, active, gone)
    requires Routable(m) && !m.kind.Start? && m.client in active
    ensures var q := active[m.client];
            && q < |sent|
            && (q in gone ==> Routes(Grown(trace, Incoming(m)), clients, sent, active - {m.client}, gone))
            && (q !in gone ==> Routes(Grown(trace, Incoming(m)), clients, sent[q := sent[q] + [m]],
                                      if Terminal(m) then active - {m.client} else active, gone))
  {}

  /**
   * Ended transfers whose queue is not empty: its client still receives and has blocks to take. When a
   * client stops, what it left in its queue is discarded.
   */
  function Undrained(ended: map<ClientId, nat>, taken: seq<nat>, sent: seq<seq<Message>>, gone: set<nat>)
    : map<ClientId, nat>
    requires |taken| == |sent| && forall c :: c in ended ==> ended[c] < |sent|
  {
    map c | c in ended && ended[c] !in gone && taken[ended[c]] < |sent[ended[c]]| :: ended[c]
  }

  /** What the clients did is what the events say: how many blocks each took, and which ones stopped. */
  ghost predicate Counted(history: seq<Event>, taken: seq<nat>, gone: set<nat>) {
    && (forall q: nat :: q < |taken| ==> taken[q] == multiset(history)[Taken(q)])
    && (forall q: nat :: q in gone <==> Gone(q) in history)
    && (forall e :: e in history ==> (e.Taken? || e.Gone? ==> e.q < |taken|))
  }

  lemma CountedOther(history: seq<Event>, taken: seq<nat>, gone: set<nat>, e: Event)
    requires Counted(history, taken, gone) && !e.Taken? && !e.Gone?
    ensures Counted(history + [e], taken, gone)
    ensures Counted(history + [e], taken + [0], gone)
  {
    var q := |taken|;
    assert forall x :: x in history + [e] <==> x in history || x == e;
    assert Taken(q) !in history;
  }

  lemma CountedWorker(history: seq<Event>, taken: seq<nat>, gone: set<nat>, q: nat)
    requires Counted(history, taken, gone) && q < |taken|
    ensures Counted(history + [Gone(q)], taken, gone + {q})
    ensures Counted(history + [Taken(q)], taken[q := taken[q] + 1], gone)
  {
    assert forall e, x :: x in history + [e] <==> x in history || x == e;
  }

  /** Every queue among the ended ones belongs to its client and has received a terminal block. */
  ghost predicate HaveEnded(trace: seq<Queue>, ended: map<ClientId, nat>) {
    forall c :: c in ended ==>
      && ended[c] < |trace| && trace[ended[c]].client == c && !trace[ended[c]].open
      && trace[ended[c]].blocks != [] && Terminal(trace[ended[c]].blocks[|trace[ended[c]].blocks| - 1])
  }

  lemma HaveEndedStill(trace: seq<Queue>, ended: map<ClientId, nat>, e: Event)
    requires HaveEnded(trace, ended)
    ensures HaveEnded(Grown(trace, e), ended)
  {}

  /**
   * After a block that ends the transfer of client `c`, whose queue is `q`: this transfer is recorded, and an
   * earlier one stays recorded exactly as long as its client still receives and has not taken all of its queue.
   */
  ghost predicate Purged(
    before: map<ClientId, nat>, after: map<ClientId, nat>, history: seq<Event>, c: ClientId, q: nat)
  {
    && c in after && after[c] == q
    && forall d :: d != c ==>
         && (d in after <==>
               && d in before && before[d] < |Trace(history)| && Gone(before[d]) !in history
               && multiset(history)[Taken(before[d])] < |Trace(history)[before[d]].blocks|)
         && (d in after ==> after[d] == before[d])
  }

  lemma UndrainedIsPurged(
    before: map<ClientId, nat>, history: seq<Event>, clients: seq<ClientId>, sent: seq<seq<Message>>,
    active: map<ClientId, nat>, taken: seq<nat>, gone: set<nat>, c: ClientId, q: nat)
    requires |taken| == |sent| && forall d :: d in before ==> before[d] < |sent|
    requires Routes(Trace(history), clients, sent, active, gone) && Counted(history, taken, gone)
    ensures Purged(before, Undrained(before, taken, sent, gone)[c := q], history, c, q)
  {}

  /** The queue that a terminal block reaches has ended; the others among the ended ones still have. */
  lemma EndsWell(
    trace: seq<Queue>, clients: seq<ClientId>, sent: seq<seq<Message>>, active: map<ClientId, nat>, gone: set<nat>,
    m: Message, ended: map<ClientId, nat>, after: map<ClientId, nat>)
    requires Routes(trace, clients, sent, active, gone) && HaveEnded(trace, ended)
    requires Terminal(m) && m.client in active && active[m.client] !in gone
    requires forall d :: d in after ==>
               (d == m.client && after[d] == active[d]) || (d in ended && after[d] == ended[d])
    ensures HaveEnded(Grown(trace, Incoming(m)), after)
  {
    HaveEndedStill(trace, ended, Incoming(m));
    var q := active[m.client];
    assert trace[q].open && Grown(trace, Incoming(m))[q] == Extend(trace[q], q, Incoming(m));
  }

  class Dispatcher {
    /** The queue of each active transfer, by client. */
    var active: map<ClientId, nat>
    /** The queues of ended transfers whose sender is kept until the client has drained them. */
    var ended: map<ClientId, nat>
    /** All client queues ever created, as pairs of client and blocks sent. */
    var clients: seq<ClientId>
    var sent: seq<seq<Message>>
    /** How many blocks each client has taken, and which clients no longer receive. */
    var taken: seq<nat>
    var gone: set<nat>
    /** Everything that has happened. */
    ghost var history: seq<Event>

    ghost predicate Valid()
      reads this
    {
      && |taken| == |sent| && Counted(history, taken, gone)
      && HaveEnded(Trace(history), ended)
      && Routes(Trace(history), clients, sent, active, gone)
    }

    constructor ()
      ensures Valid() && history == []
    {
      active, ended := map[], map[];
      clients, sent, taken, gone := [], [], [], {};
      history := [];
    }

    /** One more event has happened, and the dispatcher has dealt with it. */
    ghost method Record(e: Event)
      requires |taken| == |sent| && Counted(history + [e], taken, gone)
      requires HaveEnded(Grown(Trace(history), e), ended)
      requires Routes(Grown(Trace(history), e), clients, sent, active, gone)
      modifies this`history
      ensures Valid() && history == old(history) + [e]
    {
      TraceSnoc(history, e);
      history := history + [e];
    }

    /** `send` on a client's queue: it fails once the client has dropped the receiving end. */
    method SendTo(q: nat, m: Message) returns (ok: bool)
      requires q < |sent|
      modifies this`sent
      ensures ok == (q !in gone)
      ensures sent == if ok then old(sent)[q := old(sent)[q] + [m]] else old(sent)
    {
      ok := q !in gone;
      if ok {
        sent := sent[q := sent[q] + [m]];
      }
    }

    /** The client worker of queue `q` stops. */
    method ClientGone(q: nat)
      requires Valid() && q < |sent|
      modifies this`gone, this`history
      ensures Valid() && gone == old(gone) + {q} && history == old(history) + [Gone(q)]
    {
      CountedWorker(history, taken, gone, q);
      HaveEndedStill(Trace(history), ended, Gone(q));
      gone := gone + {q};
      Record(Gone(q));
    }

    /** The client worker of queue `q` takes a block. */
    method ClientTakes(q: nat)
      requires Valid() && q < |sent| && q !in gone && taken[q] < |sent[q]|
      modifies this`taken, this`history
      ensures Valid() && taken == old(taken)[q := old(taken)[q] + 1] && history == old(history) + [Taken(q)]
    {
      CountedWorker(history, taken, gone, q);
      HaveEndedStill(Trace(history), ended, Taken(q));
      taken := taken[q := taken[q] + 1];
      Record(Taken(q));
    }

    /** Synchronisation lost: every active transfer receives an abort block and is forgotten. */
    method Loss()
      requires Valid()
      modifies this`active, this`sent, this`history
      ensures Valid() && history == old(history) + [Lost]
      ensures active == map[]
    {
      var todo := active;
      while todo != map[]
        invariant todo.Keys <= active.Keys && forall c :: c in todo ==> todo[c] == active[c]
        invariant Aborted(clients, old(sent), sent, active, gone, todo.Keys)
        decreases |todo|
        modifies this`sent
      {
        var c :| c in todo;
        AbortOne(clients, old(sent), sent, active, gone, todo.Keys, c);
        var ok := SendTo(todo[c], AbortBlock(c));
        todo := todo - {c};
      }
      LostRoutes(Trace(history), clients, old(sent), sent, active, gone);
      active := map[];
      CountedOther(history, taken, gone, Lost);
      HaveEndedStill(Trace(history), ended, Lost);
      Record(Lost);
    }

    /** The part of the loop that purges drained transfers and records the one that has just ended. */
    method EndTransfer(client: ClientId)
      requires client in active && active[client] < |sent| && |sent| == |taken|
      requires forall c :: c in ended ==> ended[c] < |sent|
      modifies this`active, this`ended
      ensures active == old(active) - {client}
      ensures ended == Undrained(old(ended), taken, sent, gone)[client := old(active)[client]]
    {
      var q := active[client];
      active := active - {client};
      ended := Undrained(ended, taken, sent, gone);
      ended := ended[client := q];
    }

    /** Hands a block to its client's queue, if there is one; forgets the transfer if that fails or ends it. */
    method Forward(m: Message, willEnd: bool)
      requires |taken| == |sent|
      requires forall c :: c in active ==> active[c] < |sent|
      requires forall c :: c in ended ==> ended[c] < |sent|
      modifies this`active, this`ended, this`sent
      ensures |sent| == |old(sent)|
      ensures ended == if willEnd && m.client in old(active) && old(active)[m.client] !in gone
                       then Undrained(old(ended), taken, sent, gone)[m.client := old(active)[m.client]] else old(ended)
      ensures m.client !in old(active) ==> active == old(active) && sent == old(sent)
      ensures m.client in old(active) ==>
                var q := old(active)[m.client];
                && sent == (if q in gone then old(sent) else old(sent)[q := old(sent)[q] + [m]])
                && active == if q in gone || willEnd then old(active) - {m.client} else old(active)
    {
      if m.client !in active {
        return;
      }
      var ok := SendTo(active[m.client], m);
      if !ok {
        active := active - {m.client};
        return;
      }
      if willEnd {
        EndTransfer(m.client);
      }
    }

    /** A start block: creates the client's queue, whatever was active before, and hands it the block. */
    method ReceiveStart(m: Message)
      requires Valid() && m.kind.Start?
      modifies this`active, this`ended, this`clients, this`sent, this`taken, this`history
      ensures Valid() && history == old(history) + [Incoming(m)]
      ensures ended == old(ended) && taken == old(taken) + [0]
    {
      active := active[m.client := |sent|];
      clients := clients + [m.client];
      sent := sent + [[]];
      taken := taken + [0];
      Forward(m, false);
      assert |old(sent)| !in gone && sent[|old(sent)|] == [] + [m] == [m];
      assert sent == old(sent) + [[m]];
      StartRoutes(Trace(history), old(clients), old(sent), old(active), gone, m);
      CountedOther(history, old(taken), gone, Incoming(m));
      HaveEndedStill(Trace(history), ended, Incoming(m));
      Record(Incoming(m));
    }

    /** A block of an active transfer, other than a start. */
    method ReceiveActive(m: Message)
      requires Valid() && Routable(m) && !m.kind.Start? && m.client in active
      modifies this`active, this`ended, this`sent, this`history
      ensures Valid() && history == old(history) + [Incoming(m)]
      ensures if Terminal(m) && old(active)[m.client] !in gone
              then ended == Undrained(old(ended), taken, sent, gone)[m.client := old(active)[m.client]]
              else ended == old(ended)
    {
      SendRoutes(Trace(history), clients, sent, active, gone, m);
      CountedOther(history, taken, gone, Incoming(m));
      HaveEndedStill(Trace(history), ended, Incoming(m));
      Forward(m, Terminal(m));
      if Terminal(m) && old(active)[m.client] !in gone {
        EndsWell(Trace(history), clients, old(sent), old(active), gone, m, old(ended), ended);
      }
      Record(Incoming(m));
    }

    /** Any block but a start. */
    method ReceiveOther(m: Message)
      requires Valid() && !m.kind.Start?
      modifies this`active, this`ended, this`sent, this`history
      ensures Valid() && history == old(history) + [Incoming(m)]
      ensures if (m.kind.Abort? || m.kind.End?) && m.client in old(active) && Gone(old(active)[m.client]) !in history
              then Purged(old(ended), ended, history, m.client, old(active)[m.client]) else ended == old(ended)
    {
      if Routable(m) && m.client in active {
        ghost var q := active[m.client];
        ReceiveActive(m);
        UndrainedIsPurged(old(ended), history, clients, sent, active, taken, gone, m.client, q);
      } else {
        DropRoutes(Trace(history), clients, sent, active, gone, m);
        CountedOther(history, taken, gone, Incoming(m));
        HaveEndedStill(Trace(history), ended, Incoming(m));
        Record(Incoming(m));
      }
    }

    /** One decoded block. */
    method Receive(m: Message)
      requires Valid()
      modifies this`active, this`ended, this`clients, this`sent, this`taken, this`history
      ensures Valid() && history == old(history) + [Incoming(m)]
      ensures taken == old(taken) + if m.kind.Start? then [0] else []
      ensures if (m.kind.Abort? || m.kind.End?) && m.client in old(active) && Gone(old(active)[m.client]) !in history
              then Purged(old(ended), ended, history, m.client, old(active)[m.client]) else ended == old(ended)
    {
      if m.kind.Start? {
        ReceiveStart(m);
      } else {
        ReceiveOther(m);
      }
    }
  }
}
