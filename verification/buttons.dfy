/**
 The KEY3 protocol between the button thread and the USB control thread.

 The button thread turns GPIO edges into an atomic level plus a notification on
 a bounded queue. The control thread drains the queue, reads the level and
 publishes USB presence. One `Event` is one atomic action of either thread, of
 the supervisor, or of the physical button.
 */
module Buttons {

  datatype Producer =
    | Polling
    | Draining(saw: bool)
    | ReadingLevel
    | Swapping(current: bool)
    | Sending

  /** Where the control thread is. `Starting` has published nothing yet; `Ejecting`
      is the pending unconfiguration, during which notifications stay queued. */
  datatype Phase = Starting | Serving | Ejecting | Ejected | AwaitingEndpoints

  datatype Consumer =
    | Idle
    | Receiving(first: bool)
    | Loading
    | Deciding(pressed: bool)

  datatype State = State(
    level: bool,      // the physical button
    edges: nat,       // unread GPIO edge events
    atomic: bool,     // reconnect_pressed
    queue: nat,       // queued notifications
    capacity: nat,
    producer: Producer,
    consumer: Consumer,
    phase: Phase,
    present: bool)    // published USB presence

  datatype Event =
    | ButtonMoves(lost: bool)   // a full kernel queue loses the edge
    | WakeProducer
    | ReadEdge
    | EdgesDrained
    | ReadLevel
    | SwapLevel
    | Notify
    | WakeConsumer
    | ReceiveNotification
    | QueueDrained
    | LoadLevel
    | Decide
    | SupervisorQuiesces
    | SupervisorAttaches

  /** The button thread starts from a level it has read; the worker then reads the
      atomic to choose what to publish first. Older edges may still be queued. */
  ghost predicate Initial(s: State) {
    && s.atomic == s.level
    && s.queue == 0
    && s.capacity >= 1
    && s.producer == Polling
    && s.consumer == Loading
    && s.phase == Starting
    && !s.present
  }

  predicate Enabled(s: State, e: Event) {
    match e
    case ButtonMoves(lost) => lost ==> s.edges > 0
    case WakeProducer => s.producer.Polling? && s.edges > 0
    case ReadEdge => s.producer.Draining? && s.edges > 0
    case EdgesDrained => s.producer.Draining? && s.edges == 0
    case ReadLevel => s.producer.ReadingLevel?
    case SwapLevel => s.producer.Swapping?
    case Notify => s.producer.Sending?
    case WakeConsumer => s.consumer.Idle? && s.queue > 0 && (s.phase.Serving? || s.phase.Ejected?)
    case ReceiveNotification => s.consumer.Receiving? && s.queue > 0
    case QueueDrained => s.consumer.Receiving? && s.queue == 0
    case LoadLevel => s.consumer.Loading?
    case Decide => s.consumer.Deciding?
    case SupervisorQuiesces => s.consumer.Idle? && s.phase.Ejecting?
    case SupervisorAttaches => s.consumer.Idle? && s.phase.AwaitingEndpoints?
  }

  function Next(s: State, e: Event): State
    requires Enabled(s, e)
  {
    match e
    case ButtonMoves(lost) => s.(level := !s.level, edges := if lost then s.edges else s.edges + 1)
    case WakeProducer => s.(producer := Draining(false))
    case ReadEdge => s.(edges := s.edges - 1, producer := Draining(true))
    case EdgesDrained => s.(producer := if s.producer.saw then ReadingLevel else Polling)
    case ReadLevel => s.(producer := Swapping(s.level))
    case SwapLevel =>
      s.(atomic := s.producer.current, producer := if s.atomic != s.producer.current then Sending else Polling)
    case Notify =>
      // A full queue drops the notification.
      s.(queue := if s.queue < s.capacity then s.queue + 1 else s.queue, producer := Polling)
    case WakeConsumer => s.(consumer := Receiving(true))
    case ReceiveNotification => s.(queue := s.queue - 1, consumer := Receiving(false))
    case QueueDrained => s.(consumer := Loading)
    case LoadLevel => s.(consumer := Deciding(s.atomic))
    case Decide =>
      if s.phase.Starting? && s.consumer.pressed then
        s.(consumer := Idle, phase := Ejected)
      else if s.phase.Starting? then
        s.(consumer := Idle, present := true, phase := AwaitingEndpoints)
      else if s.phase.Serving? && s.consumer.pressed then
        s.(consumer := Idle, present := false, phase := Ejecting)
      else if s.phase.Ejected? && !s.consumer.pressed then
        s.(consumer := Idle, present := true, phase := AwaitingEndpoints)
      else
        s.(consumer := Idle)
    case SupervisorQuiesces => s.(phase := Ejected)
    case SupervisorAttaches => s.(phase := Serving)
  }

  /** A run is a list of enabled events. */
  ghost predicate Runs(s: State, events: seq<Event>, t: State)
    decreases |events|
  {
    if events == [] then s == t
    else Enabled(s, events[0]) && Runs(Next(s, events[0]), events[1..], t)
  }

  // ----- the invariant

  /** The button thread still has to look at the level. */
  predicate ProducerWillLook(s: State) {
    || s.edges > 0
    || s.producer == Draining(true)
    || s.producer.ReadingLevel?
  }

  /** The control thread still has to read the atomic. */
  predicate ConsumerWillLook(s: State) {
    || s.queue > 0
    || s.producer.Sending?
    || s.consumer.Receiving?
    || s.consumer.Loading?
  }

  ghost predicate Inv(s: State) {
    && s.capacity >= 1
    && (s.producer.Swapping? ==> s.producer.current == s.level || s.edges > 0)
    && (!s.producer.Swapping? ==> s.atomic == s.level || ProducerWillLook(s))
    && (s.consumer.Deciding? ==> s.consumer.pressed == s.atomic || ConsumerWillLook(s))
    && (!s.consumer.Deciding? ==> s.present == !s.atomic || ConsumerWillLook(s))
    && s.present == (s.phase.Serving? || s.phase.AwaitingEndpoints?)
    && (!s.consumer.Idle? ==> s.phase.Serving? || s.phase.Ejected? || s.phase.Starting?)
    && (s.phase.Starting? ==> s.consumer.Loading? || s.consumer.Deciding?)
    && (s.consumer == Receiving(true) ==> s.queue > 0)
  }

  predicate OfProducer(e: Event) {
    e.WakeProducer? || e.ReadEdge? || e.EdgesDrained? || e.ReadLevel? || e.SwapLevel? || e.Notify?
  }

  predicate OfConsumer(e: Event) {
    e.WakeConsumer? || e.ReceiveNotification? || e.QueueDrained? || e.LoadLevel? || e.Decide?
  }

  predicate OfSupervisor(e: Event) {
    e.SupervisorQuiesces? || e.SupervisorAttaches?
  }

  lemma InvButton(s: State, e: Event)
    requires Inv(s) && Enabled(s, e) && e.ButtonMoves?
    ensures Inv(Next(s, e))
  {
  }

  lemma InvDrain(s: State, e: Event)
    requires Inv(s) && Enabled(s, e) && (e.WakeProducer? || e.ReadEdge? || e.EdgesDrained?)
    ensures Inv(Next(s, e))
  {
  }

  lemma InvPublish(s: State, e: Event)
    requires Inv(s) && Enabled(s, e) && (e.ReadLevel? || e.SwapLevel? || e.Notify?)
    ensures Inv(Next(s, e))
  {
  }

  lemma InvReceive(s: State, e: Event)
    requires Inv(s) && Enabled(s, e) && OfConsumer(e) && !e.Decide?
    ensures Inv(Next(s, e))
  {
  }

  lemma InvFirstDecision(s: State)
    requires Inv(s) && s.consumer.Deciding? && s.phase.Starting?
    ensures Inv(Next(s, Decide))
  {
  }

  lemma InvLaterDecision(s: State)
    requires Inv(s) && s.consumer.Deciding? && !s.phase.Starting?
    ensures Inv(Next(s, Decide))
  {
  }

  lemma InvSupervisor(s: State, e: Event)
    requires Inv(s) && Enabled(s, e) && OfSupervisor(e)
    ensures Inv(Next(s, e))
  {
  }

  /** Every step of either thread, of the supervisor and of the button keeps the invariant. */
  lemma InvStep(s: State, e: Event)
    requires Inv(s) && Enabled(s, e)
    ensures Inv(Next(s, e))
  {
    if e.ButtonMoves? {
      InvButton(s, e);
    } else if e.WakeProducer? || e.ReadEdge? || e.EdgesDrained? {
      InvDrain(s, e);
    } else if OfProducer(e) {
      InvPublish(s, e);
    } else if OfConsumer(e) && !e.Decide? {
      InvReceive(s, e);
    } else if OfSupervisor(e) {
      InvSupervisor(s, e);
    } else if s.phase.Starting? {
      InvFirstDecision(s);
    } else {
      InvLaterDecision(s);
    }
  }

  lemma {:induction false} InvRun(s: State, events: seq<Event>, t: State)
    requires Inv(s) && Runs(s, events, t)
    ensures Inv(t)
    decreases |events|
  {
    if events != [] {
      InvStep(s, events[0]);
      InvRun(Next(s, events[0]), events[1..], t);
    }
  }

  // ----- convergence

  /** Everything drained and both threads waiting. */
  predicate Quiet(s: State) {
    s.edges == 0 && s.queue == 0 && s.producer.Polling? && s.consumer.Idle?
  }

  /** Whenever the system is quiet, presence is the negation of the button, however
      the threads were interleaved and whichever notifications were dropped. */
  lemma Convergence(s: State, events: seq<Event>, t: State)
    requires Initial(s) && Runs(s, events, t) && Quiet(t)
    ensures t.present == !t.level
  {
    InvRun(s, events, t);
  }

  /** Only the physical button can keep the system busy: every other event
      lowers this measure. */
  function Work(s: State): nat {
    40 * ProducerWork(s.producer, s.edges) + ConsumerWork(s.consumer, s.queue)
    + if s.phase.Ejecting? || s.phase.AwaitingEndpoints? then 1 else 0
  }

  function ProducerWork(p: Producer, edges: nat): nat {
    16 * edges + match p
                 case Polling => if edges > 0 then 6 else 0
                 case Draining(saw) => if saw then 12 else 5
                 case ReadingLevel => 11
                 case Swapping(_) => 10
                 case Sending => 9
  }

  function ConsumerWork(c: Consumer, queue: nat): nat {
    16 * queue + match c
                 case Idle => if queue > 0 then 4 else 0
                 case Receiving(first) => if first then 3 else 14
                 case Loading => 12
                 case Deciding(_) => 10
  }

  lemma ProducerWorks(s: State, e: Event)
    requires Inv(s) && Enabled(s, e) && OfProducer(e)
    ensures
      var next := Next(s, e);
      && ProducerWork(next.producer, next.edges) < ProducerWork(s.producer, s.edges)
      && ConsumerWork(next.consumer, next.queue) <= ConsumerWork(s.consumer, s.queue) + 20
      && next.phase == s.phase
  {
  }

  lemma ConsumerWorks(s: State, e: Event)
    requires Inv(s) && Enabled(s, e) && OfConsumer(e)
    ensures
      var next := Next(s, e);
      && next.producer == s.producer && next.edges == s.edges
      && ConsumerWork(next.consumer, next.queue) + 1 <= ConsumerWork(s.consumer, s.queue)
      && (e.Decide? ==> ConsumerWork(next.consumer, next.queue) + 2 <= ConsumerWork(s.consumer, s.queue))
      && (!e.Decide? ==> next.phase == s.phase)
  {
  }

  lemma WorkDecreases(s: State, e: Event)
    requires Inv(s) && Enabled(s, e) && !e.ButtonMoves?
    ensures Work(Next(s, e)) < Work(s)
  {
    if OfProducer(e) {
      ProducerWorks(s, e);
    } else if OfConsumer(e) {
      ConsumerWorks(s, e);
    }
  }

  /** While something is left to do, some thread or the supervisor can move. */
  lemma NoDeadlock(s: State)
    requires Inv(s) && !(Quiet(s) && (s.phase.Serving? || s.phase.Ejected?))
    ensures exists e :: Enabled(s, e) && !e.ButtonMoves?
  {
    var e :=
      if s.producer.Polling? && s.edges > 0 then WakeProducer
      else if s.producer.Draining? && s.edges > 0 then ReadEdge
      else if s.producer.Draining? then EdgesDrained
      else if s.producer.ReadingLevel? then ReadLevel
      else if s.producer.Swapping? then SwapLevel
      else if s.producer.Sending? then Notify
      else if s.consumer.Receiving? && s.queue > 0 then ReceiveNotification
      else if s.consumer.Receiving? then QueueDrained
      else if s.consumer.Loading? then LoadLevel
      else if s.consumer.Deciding? then Decide
      else if s.phase.Ejecting? then SupervisorQuiesces
      else if s.phase.AwaitingEndpoints? then SupervisorAttaches
      else WakeConsumer;
    assert Enabled(s, e);
  }

  /** Once the button rests, every schedule comes to a halt, and it halts settled. */
  lemma {:induction false} EverySettlingRunIsBounded(s: State, events: seq<Event>, t: State)
    requires Inv(s) && Runs(s, events, t)
    requires forall i :: 0 <= i < |events| ==> !events[i].ButtonMoves?
    ensures |events| <= Work(s)
    ensures (forall e :: Enabled(t, e) ==> e.ButtonMoves?) ==> Quiet(t) && t.present == !t.level
    decreases |events|
  {
    if events == [] {
      if !Quiet(t) {
        NoDeadlock(t);
      }
    } else {
      InvStep(s, events[0]);
      WorkDecreases(s, events[0]);
      EverySettlingRunIsBounded(Next(s, events[0]), events[1..], t);
    }
  }

  // ----- the two loops as the threads run them, without interference

  function QueueAfterDrain(level: bool, edges: nat, atomic: bool, queue: nat, capacity: nat): nat {
    if edges > 0 && level != atomic && queue < capacity then queue + 1 else queue
  }

  function Reads(n: nat): seq<Event> {
    seq(n, _ => ReadEdge)
  }

  lemma {:induction false} RunsAppend(s: State, a: seq<Event>, t: State, b: seq<Event>, u: State)
    requires Runs(s, a, t) && Runs(t, b, u)
    ensures Runs(s, a + b, u)
    decreases |a|
  {
    if a == [] {
      assert a + b == b;
    } else {
      RunsAppend(Next(s, a[0]), a[1..], t, b, u);
      assert (a + b)[1..] == a[1..] + b;
    }
  }

  lemma {:induction false} ReadsRun(s: State, n: nat)
    requires s.producer.Draining? && s.edges == n > 0
    ensures Runs(s, Reads(n), s.(edges := 0, producer := Draining(true)))
    decreases n
  {
    var next := Next(s, ReadEdge);
    assert Reads(n)[1..] == Reads(n - 1);
    if n > 1 {
      ReadsRun(next, n - 1);
    }
  }

  /** The button thread's drain loop is one schedule of the machine above. */
  lemma DrainIsARun(s: State)
    requires s.producer.Polling? && s.edges > 0
    ensures exists events ::
      Runs(s, events, s.(edges := 0, atomic := s.level,
                         queue := QueueAfterDrain(s.level, s.edges, s.atomic, s.queue, s.capacity)))
  {
    var start := [WakeProducer];
    var drained := s.(edges := 0, producer := Draining(true));
    assert Runs(Next(s, WakeProducer), [], Next(s, WakeProducer));
    assert start[1..] == [];
    assert Runs(s, start, Next(s, WakeProducer));
    ReadsRun(Next(s, WakeProducer), s.edges);
    RunsAppend(s, start, Next(s, WakeProducer), Reads(s.edges), drained);
    var finish := [EdgesDrained, ReadLevel, SwapLevel] + if s.level != s.atomic then [Notify] else [];
    FinishRun(s, finish);
    RunsAppend(s, start + Reads(s.edges), drained, finish,
               s.(edges := 0, atomic := s.level,
                  queue := QueueAfterDrain(s.level, s.edges, s.atomic, s.queue, s.capacity)));
  }

  lemma FinishRun(s: State, finish: seq<Event>)
    requires s.producer.Polling? && s.edges > 0
    requires finish == [EdgesDrained, ReadLevel, SwapLevel] + if s.level != s.atomic then [Notify] else []
    ensures Runs(s.(edges := 0, producer := Draining(true)), finish,
                 s.(edges := 0, atomic := s.level,
                    queue := QueueAfterDrain(s.level, s.edges, s.atomic, s.queue, s.capacity)))
  {
    var s0 := s.(edges := 0, producer := Draining(true));
    var s1 := Next(s0, EdgesDrained);
    var s2 := Next(s1, ReadLevel);
    var s3 := Next(s2, SwapLevel);
    var rest := if s.level != s.atomic then [Notify] else [];
    assert finish[1..] == [ReadLevel, SwapLevel] + rest;
    assert finish[1..][1..] == [SwapLevel] + rest;
    assert finish[1..][1..][1..] == rest;
    if s.level != s.atomic {
      assert rest[1..] == [];
      assert Runs(s3, rest, Next(s3, Notify));
    } else {
      assert Runs(s3, rest, s3);
    }
  }

  class Line {
    var level: bool
    var edges: nat
    var pressed: bool
    var queue: nat
    const capacity: nat

    constructor (level: bool, capacity: nat)
      requires capacity >= 1
      ensures this.level == level && edges == 0 && pressed == level && queue == 0 && this.capacity == capacity
    {
      this.level, this.edges, this.pressed, this.queue, this.capacity := level, 0, level, 0, capacity;
    }

    method DrainReconnectEvents()
      modifies this
      ensures edges == 0 && level == old(level)
      ensures pressed == if old(edges) > 0 then level else old(pressed)
      ensures queue == QueueAfterDrain(level, old(edges), old(pressed), old(queue), capacity)
    {
      var sawTransition := false;
      while edges > 0
        invariant level == old(level) && pressed == old(pressed) && queue == old(queue)
        invariant sawTransition ==> old(edges) > 0
        invariant edges > 0 || sawTransition || old(edges) == 0
      {
        edges := edges - 1;
        sawTransition := true;
      }
      if sawTransition {
        var current := level;
        var previous := pressed;
        pressed := current;
        if previous != current {
          if queue < capacity {
            queue := queue + 1;
          }
        }
      }
    }

    method TakeReconnectState() returns (state: bool)
      modifies this`queue
      ensures queue == 0 && state == pressed
    {
      while queue > 0 {
        queue := queue - 1;
      }
      state := pressed;
    }
  }
}
