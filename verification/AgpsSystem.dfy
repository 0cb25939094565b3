/** The AGPS state machine composed with NativeAgpsHandler: the handler answers each framework request
    or release by posting one message, and posted messages may be delivered in any order. */
module AgpsSystem {
  import opened Wrappers
  import opened Agps
  import AgpsRuns

  datatype Reply = OpenSucceeded | OpenFailed | Closed

  /** What the handler sees while it serves one message of the machine: whether the request type of the
      machine is WWAN_ANY, whether mobile data is connected, and whether dataConnOpenCommand accepts the APN.
      A refused APN makes it call reportAtlClosed at once, which the machine ignores in the states
      a request is made from, so nothing is left to be delivered. */
  datatype Surroundings = Surroundings(wwanAny: bool, connected: bool, apnValid: bool)

  predicate Answered(w: Surroundings) {
    w.wwanAny && (w.connected ==> w.apnValid)
  }

  function Answer(o: Output, w: Surroundings): seq<Reply> {
    if !w.wwanAny then []
    else match o
      case RequestDataConn =>
        if !w.connected then [OpenFailed] else if w.apnValid then [OpenSucceeded] else []
      case ReleaseDataConn => [Closed]
      case _ => []
  }

  function Answers(outputs: seq<Output>, w: Surroundings): seq<Reply> {
    if outputs == [] then [] else Answer(outputs[0], w) + Answers(outputs[1..], w)
  }

  datatype System = System(machine: Machine, inFlight: multiset<Reply>)

  function EventOf(r: Reply): Event {
    match r
    case OpenSucceeded => Granted
    case OpenFailed => Denied
    case Closed => ReleasedByFramework
  }

  /** A client call or a modem restart. */
  function Call(sys: System, e: Event, w: Surroundings): System {
    var effect := Step(sys.machine, e);
    System(effect.machine, sys.inFlight + multiset(Answers(effect.outputs, w)))
  }

  /** One posted reply reaches the machine. */
  function Deliver(sys: System, r: Reply, w: Surroundings): System {
    Call(System(sys.machine, sys.inFlight - multiset{r}), EventOf(r), w)
  }

  datatype Move = ClientCall(e: Event) | Delivery(r: Reply)

  predicate CanMove(sys: System, m: Move) {
    match m
    case ClientCall(e) => e.Subscribe? || e.Unsubscribe? || e.ModemRestart?
    case Delivery(r) => r in sys.inFlight
  }

  function Next(sys: System, m: Move, w: Surroundings): System {
    match m
    case ClientCall(e) => Call(sys, e, w)
    case Delivery(r) => Deliver(sys, r, w)
  }

  /** Somebody waiting in PENDING or RELEASING has a reply on its way. */
  ghost predicate Waited(sys: System) {
    && (sys.machine.state == Pending ==> OpenSucceeded in sys.inFlight || OpenFailed in sys.inFlight)
    && (sys.machine.state == Releasing ==> Closed in sys.inFlight)
  }

  // ---------------------------------------------------------------- what one event sends

  lemma {:induction false} CallbacksNeedNoAnswer(
      list: seq<Subscriber>, notice: Notice, kind: Notification, w: Surroundings)
    ensures Answers(Callbacks(list, notice, kind), w) == []
  {
    if list != [] {
      var out := Callbacks(list, notice, kind);
      CallbacksNeedNoAnswer(list[1..], notice, kind, w);
      if Selected(kind, list[0]) {
        assert out[1..] == Callbacks(list[1..], notice, kind);
      } else {
        assert out == Callbacks(list[1..], notice, kind);
      }
    }
  }

  lemma {:induction false} AnswersAppend(out: seq<Output>, o: Output, w: Surroundings)
    ensures Answers(out + [o], w) == Answers(out, w) + Answer(o, w)
  {
    if out == [] {
      assert [] + [o] == [o];
    } else {
      assert (out + [o])[1..] == out[1..] + [o];
      AnswersAppend(out[1..], o, w);
    }
  }

  lemma FinishReleaseAnswers(m: Machine, w: Surroundings)
    ensures var effect := FinishRelease(m);
            && (effect.machine.state == Pending || effect.machine.state == Released)
            && Answers(effect.outputs, w) ==
               if effect.machine.state == Pending then Answer(RequestDataConn, w) else []
  {
    var notes := Callbacks(m.subscribers, ClosedNotice, ForInactive);
    CallbacksNeedNoAnswer(m.subscribers, ClosedNotice, ForInactive, w);
    AnswersAppend(notes, RequestDataConn, w);
  }

  lemma UnsubscribeAnswers(m: Machine, s: Subscriber, w: Surroundings)
    ensures var effect := OnUnsubscribe(m, s);
            if (m.state == Pending || m.state == Acquired) && effect.machine.state != m.state
            then Answers(effect.outputs, w) == Answer(ReleaseDataConn, w)
                 && (effect.machine.state == Releasing || effect.machine.state == Released)
            else Answers(effect.outputs, w) == []
                 && (effect.machine.state == m.state || effect.machine.state == Released)
  {
    var notes := if s.waitForClose then [] else [Callback(ClosedNotice, s.handle)];
    AnswersOne(Callback(ClosedNotice, s.handle), w);
    AnswersAppend(notes, ReleaseDataConn, w);
    assert [] + Answer(ReleaseDataConn, w) == Answer(ReleaseDataConn, w);
  }

  lemma AnswersOne(o: Output, w: Surroundings)
    ensures Answers([o], w) == Answer(o, w)
  {
    assert [o][1..] == [];
  }

  /** What is posted depends only on the state change: entering PENDING asks, leaving PENDING or ACQUIRED
      by an unsubscription releases, and nothing else posts. */
  lemma StepAnswers(m: Machine, e: Event, w: Surroundings)
    ensures var effect := Step(m, e);
            var posted := Answers(effect.outputs, w);
            var state := effect.machine.state;
            if state == Pending && m.state != Pending then posted == Answer(RequestDataConn, w)
            else if e.Unsubscribe? && state != m.state && m.state != Releasing
            then posted == Answer(ReleaseDataConn, w)
            else posted == []
    ensures Step(m, e).machine.state == Releasing && m.state != Releasing ==>
              e.Unsubscribe? && (m.state == Pending || m.state == Acquired)
    ensures Step(m, e).machine.state == Pending && m.state != Pending ==>
              e.Subscribe? || (m.state == Releasing && (e == Denied || e == ReleasedByFramework))
  {
    match e
    case Subscribe(s) =>
      AnswersOne(RequestDataConn, w);
      AnswersOne(Callback(GrantedNotice, s.handle), w);
    case Unsubscribe(handle) =>
      if Lookup(m.subscribers, handle).Some? {
        UnsubscribeAnswers(m, Lookup(m.subscribers, handle).value, w);
      }
    case Granted => CallbacksNeedNoAnswer(m.subscribers, GrantedNotice, ForActive, w);
    case ReleasedByFramework =>
      FinishReleaseAnswers(m, w);
      CallbacksNeedNoAnswer(m.subscribers, ClosedNotice, ForAll, w);
    case Denied =>
      FinishReleaseAnswers(m, w);
      CallbacksNeedNoAnswer(m.subscribers, DeniedNotice, ForAll, w);
    case ModemRestart =>
  }

  // ---------------------------------------------------------------- which reply is on its way

  /** What is in flight besides the reply that is being delivered. */
  function Others(sys: System, m: Move): multiset<Reply> {
    if m.Delivery? then sys.inFlight - multiset{m.r} else sys.inFlight
  }

  predicate Enters(sys: System, m: Move, w: Surroundings, state: AgpsState) {
    sys.machine.state != state && Next(sys, m, w).machine.state == state
  }

  /** The surroundings answer the request or release that the move makes, or an older reply is still on its way. */
  predicate Served(sys: System, m: Move, w: Surroundings) {
    && (Enters(sys, m, w, Pending) ==>
          Answered(w) || OpenSucceeded in Others(sys, m) || OpenFailed in Others(sys, m))
    && (Enters(sys, m, w, Releasing) ==> w.wwanAny || Closed in Others(sys, m))
  }

  function Cause(m: Move): Event {
    match m
    case ClientCall(e) => e
    case Delivery(r) => EventOf(r)
  }

  lemma Posts(sys: System, m: Move, w: Surroundings)
    ensures Next(sys, m, w).inFlight == Others(sys, m) + multiset(Answers(Step(sys.machine, Cause(m)).outputs, w))
  {
  }

  lemma AnswerIs(w: Surroundings)
    ensures !w.wwanAny ==> Answer(RequestDataConn, w) == Answer(ReleaseDataConn, w) == []
    ensures w.wwanAny ==>
              Answer(RequestDataConn, w)
                == (if !w.connected then [OpenFailed] else if w.apnValid then [OpenSucceeded] else [])
              && Answer(ReleaseDataConn, w) == [Closed]
  {
  }

  predicate Releases(sys: System, m: Move, w: Surroundings) {
    && m.ClientCall? && m.e.Unsubscribe? && (sys.machine.state == Pending || sys.machine.state == Acquired)
    && Next(sys, m, w).machine.state != sys.machine.state
  }

  function PostsOf(state: AgpsState, unsubscribes: bool, next: AgpsState, w: Surroundings): seq<Reply> {
    if state != Pending && next == Pending then Answer(RequestDataConn, w)
    else if unsubscribes && (state == Pending || state == Acquired) && next != state then Answer(ReleaseDataConn, w)
    else []
  }

  lemma StepPosts(m: Machine, e: Event, w: Surroundings)
    ensures Answers(Step(m, e).outputs, w) == PostsOf(m.state, e.Unsubscribe?, Step(m, e).machine.state, w)
  {
    StepAnswers(m, e, w);
  }

  lemma MoveAnswers(sys: System, m: Move, w: Surroundings)
    ensures Next(sys, m, w).inFlight == Others(sys, m) + multiset(
              PostsOf(sys.machine.state, m.ClientCall? && m.e.Unsubscribe?, Next(sys, m, w).machine.state, w))
  {
    Posts(sys, m, w);
    NextMachine(sys, m, w);
    StepPosts(sys.machine, Cause(m), w);
  }

  lemma NextMachine(sys: System, m: Move, w: Surroundings)
    ensures Next(sys, m, w).machine == Step(sys.machine, Cause(m)).machine
  {
  }

  /** What joins the replies on their way, for every move. Entering PENDING without data a failure, with data a success
      if the APN is accepted; an unsubscription that leaves PENDING or ACQUIRED a close; and nothing else does, nor
      does anything for another type than WWAN_ANY. */
  lemma MovePosts(sys: System, m: Move, w: Surroundings)
    requires CanMove(sys, m)
    ensures var next := Next(sys, m, w);
            && (w.wwanAny && Enters(sys, m, w, Pending) && !w.connected ==>
                  next.inFlight == Others(sys, m) + multiset{OpenFailed})
            && (w.wwanAny && Enters(sys, m, w, Pending) && w.connected && w.apnValid ==>
                  next.inFlight == Others(sys, m) + multiset{OpenSucceeded})
            && (Enters(sys, m, w, Pending) && w.connected && !w.apnValid ==> next.inFlight == Others(sys, m))
            && (w.wwanAny && Releases(sys, m, w) ==> next.inFlight == Others(sys, m) + multiset{Closed})
            && (!w.wwanAny || (!Releases(sys, m, w) && !Enters(sys, m, w, Pending)) ==> next.inFlight == Others(sys, m))
  {
    MoveAnswers(sys, m, w);
    AnswerIs(w);
    StepAnswers(sys.machine, Cause(m), w);
    NextMachine(sys, m, w);
  }

  /** Every request, the one made on leaving RELEASING included: whatever move enters PENDING, it is waited for
      exactly when the surroundings answer it or an older open reply is still on its way. */
  lemma RequestWaitedIff(sys: System, m: Move, w: Surroundings)
    requires CanMove(sys, m) && Enters(sys, m, w, Pending)
    ensures Waited(Next(sys, m, w)) <==>
            Answered(w) || OpenSucceeded in Others(sys, m) || OpenFailed in Others(sys, m)
  {
    MovePosts(sys, m, w);
  }

  /** And every release, whatever move enters RELEASING: its reply needs no data and no APN. */
  lemma ReleaseWaitedIff(sys: System, m: Move, w: Surroundings)
    requires CanMove(sys, m) && Enters(sys, m, w, Releasing)
    ensures Waited(Next(sys, m, w)) <==> w.wwanAny || Closed in Others(sys, m)
  {
    MovePosts(sys, m, w);
    StepAnswers(sys.machine, Cause(m), w);
  }

  /** Whatever happens, a reply stays on its way for whoever waits exactly if what the move asks for is served. */
  lemma MoveKeepsWaitedIff(sys: System, m: Move, w: Surroundings)
    requires Waited(sys) && CanMove(sys, m)
    ensures Waited(Next(sys, m, w)) <==> Served(sys, m, w)
  {
    if Enters(sys, m, w, Pending) {
      RequestWaitedIff(sys, m, w);
    } else if Enters(sys, m, w, Releasing) {
      ReleaseWaitedIff(sys, m, w);
    } else if m.Delivery? {
      DeliveryKeepsWaited(sys, m.r, w);
    } else {
      StepAnswers(sys.machine, m.e, w);
    }
  }

  lemma DeliveryKeepsWaited(sys: System, r: Reply, w: Surroundings)
    requires Waited(sys) && r in sys.inFlight
    requires !Enters(sys, Delivery(r), w, Pending) && !Enters(sys, Delivery(r), w, Releasing)
    ensures Waited(Deliver(sys, r, w))
  {
    StepAnswers(sys.machine, EventOf(r), w);
    var next := Deliver(sys, r, w);
    if next.machine.state == sys.machine.state {
      OthersStay(sys.inFlight, r, next.inFlight);
    }
  }

  lemma OthersStay(before: multiset<Reply>, r: Reply, after: multiset<Reply>)
    requires r in before && before - multiset{r} <= after
    ensures forall other | other in before && other != r :: other in after
  {
    forall other | other in before && other != r ensures other in after {
      assert (before - multiset{r})[other] == before[other];
    }
  }

  /** A schedule: client calls, modem restarts and deliveries in any order, each with its surroundings. */
  type Schedule = seq<(Move, Surroundings)>

  ghost predicate Possible(sys: System, moves: Schedule)
    decreases |moves|
  {
    moves == [] || (CanMove(sys, moves[0].0) && Possible(Next(sys, moves[0].0, moves[0].1), moves[1..]))
  }

  ghost function After(sys: System, moves: Schedule): System
    decreases |moves|
  {
    if moves == [] then sys else After(Next(sys, moves[0].0, moves[0].1), moves[1..])
  }

  ghost predicate ServedAt(sys: System, moves: Schedule, i: nat)
    requires i < |moves|
  {
    Served(After(sys, moves[..i]), moves[i].0, moves[i].1)
  }

  ghost predicate AllServed(sys: System, moves: Schedule) {
    forall i :: 0 <= i < |moves| ==> ServedAt(sys, moves, i)
  }

  lemma ServedHeadAndTail(sys: System, moves: Schedule)
    requires moves != [] && AllServed(sys, moves)
    ensures Served(sys, moves[0].0, moves[0].1)
    ensures AllServed(Next(sys, moves[0].0, moves[0].1), moves[1..])
  {
    assert ServedAt(sys, moves, 0);
    var next := Next(sys, moves[0].0, moves[0].1);
    forall i | 0 <= i < |moves[1..]| ensures ServedAt(next, moves[1..], i) {
      assert ServedAt(sys, moves, i + 1);
      assert moves[..i + 1][0] == moves[0] && moves[..i + 1][1..] == moves[1..][..i];
      assert moves[1..][i] == moves[i + 1];
    }
  }

  const Start := System(Initial, multiset{})

  /** Over every schedule in which each request and release is served, in any delivery order and across modem restarts:
      PENDING has an open or failure outstanding, RELEASING has a close outstanding. */
  lemma {:induction false} ReplyAlwaysOutstanding(sys: System, moves: Schedule)
    requires Waited(sys) && Possible(sys, moves) && AllServed(sys, moves)
    ensures Waited(After(sys, moves))
    decreases |moves|
  {
    if moves != [] {
      ServedHeadAndTail(sys, moves);
      MoveKeepsWaitedIff(sys, moves[0].0, moves[0].1);
      ReplyAlwaysOutstanding(Next(sys, moves[0].0, moves[0].1), moves[1..]);
    }
  }

  /** For one, a schedule in which the surroundings always answer. */
  lemma AnsweredIsServed(sys: System, moves: Schedule)
    requires forall i :: 0 <= i < |moves| ==> Answered(moves[i].1)
    ensures AllServed(sys, moves)
  {
    forall i | 0 <= i < |moves| ensures ServedAt(sys, moves, i) {
      assert Answered(moves[i].1);
    }
  }

  /** The surroundings of the first request decide: it is waited for exactly when the request type is
      WWAN_ANY and, if data is connected, the APN is accepted. Otherwise PENDING is never left by a reply. */
  lemma FirstRequestWaitedIff(s: Subscriber, w: Surroundings)
    ensures Waited(Call(Start, Subscribe(s), w)) <==> Answered(w)
  {
    StepAnswers(Initial, Subscribe(s), w);
    assert Lookup([], s.handle) == None;
    assert Step(Initial, Subscribe(s)).machine.state == Pending;
    assert Answer(RequestDataConn, w) == [] <==> !Answered(w);
  }

  /** From the initial system to the client: if data is connected and the APN accepted, one reply is on its way and its
      delivery grants the request; without data, one is and its delivery denies it; otherwise none is. */
  lemma FirstRequestEnds(s: Subscriber, w: Surroundings, r: Reply, later: Surroundings)
    requires w.wwanAny && !s.inactive
    ensures var sys := Call(Start, Subscribe(s), w);
            && (r in sys.inFlight ==> sys.inFlight == multiset{r})
            && (sys.inFlight == multiset{} <==> w.connected && !w.apnValid)
            && (r in sys.inFlight ==>
                  var next := Deliver(sys, r, later);
                  var sent := Step(Initial, Subscribe(s)).outputs + Step(sys.machine, EventOf(r)).outputs;
                  var heard := AgpsRuns.History(sent, s.handle);
                  && (w.connected && w.apnValid <==>
                        next.machine.state == Acquired && heard == [AtlOpen(s.handle, true)])
                  && (!w.connected <==>
                        next.machine == Initial && heard == [AtlOpen(s.handle, false)]))
  {
    FirstRequestPosts(s, w);
    FirstGrant(s);
    FirstDenial(s);
  }

  lemma FirstRequestPosts(s: Subscriber, w: Surroundings)
    requires w.wwanAny
    ensures var sys := Call(Start, Subscribe(s), w);
            && sys.machine == Machine(Pending, [s])
            && Step(Initial, Subscribe(s)).outputs == [RequestDataConn]
            && sys.inFlight == if !w.connected then multiset{OpenFailed}
                               else if w.apnValid then multiset{OpenSucceeded} else multiset{}
  {
    MovePosts(Start, ClientCall(Subscribe(s)), w);
    assert Lookup([], s.handle) == None;
    assert [] + [s] == [s];
  }

  lemma FirstGrant(s: Subscriber)
    requires !s.inactive
    ensures var effect := Step(Machine(Pending, [s]), Granted);
            && effect.machine == Machine(Acquired, [s])
            && AgpsRuns.History([RequestDataConn] + effect.outputs, s.handle) == [AtlOpen(s.handle, true)]
  {
    assert [s][1..] == [];
    assert Callbacks([s], GrantedNotice, ForActive) == [AtlOpen(s.handle, true)] + [];
    assert Step(Machine(Pending, [s]), Granted).outputs == [AtlOpen(s.handle, true)];
    HeardOne(s.handle, AtlOpen(s.handle, true));
  }

  lemma FirstDenial(s: Subscriber)
    ensures var effect := Step(Machine(Pending, [s]), Denied);
            && effect.machine == Initial
            && AgpsRuns.History([RequestDataConn] + effect.outputs, s.handle) == [AtlOpen(s.handle, false)]
  {
    assert [s][1..] == [];
    assert Callbacks([s], DeniedNotice, ForAll) == [AtlOpen(s.handle, false)] + [];
    assert Unselected([s], ForAll) == [] + [];
    assert Step(Machine(Pending, [s]), Denied).outputs == [AtlOpen(s.handle, false)];
    HeardOne(s.handle, AtlOpen(s.handle, false));
  }

  lemma HeardOne(handle: int, o: Output)
    requires AgpsRuns.Concerns(o, handle)
    ensures AgpsRuns.History([RequestDataConn] + [o], handle) == [o]
  {
    var log := [RequestDataConn] + [o];
    assert log[1..] == [o] && [o][1..] == [];
    assert AgpsRuns.History([o], handle) == [o] + AgpsRuns.History([], handle) == [o];
    assert AgpsRuns.History(log, handle) == [] + AgpsRuns.History([o], handle);
  }

  /** A close that comes late, in a state that does not wait for it: ignored in PENDING and RELEASED, while in ACQUIRED
      it takes the connection from everybody. */
  lemma LateCloseIs(sys: System, w: Surroundings)
    requires Closed in sys.inFlight && sys.machine.state != Releasing
    ensures var next := Deliver(sys, Closed, w);
            && next.inFlight == sys.inFlight - multiset{Closed}
            && (sys.machine.state != Acquired ==> next.machine == sys.machine)
            && (sys.machine.state == Acquired ==> next.machine.state == Released)
  {
    MovePosts(sys, Delivery(Closed), w);
  }

  // ---------------------------------------------------------------- every success answers a request with data

  predicate AsksWithData(sys: System, m: Move, w: Surroundings) {
    Enters(sys, m, w, Pending) && w.wwanAny && w.connected && w.apnValid
  }

  predicate AsksWithoutData(sys: System, m: Move, w: Surroundings) {
    Enters(sys, m, w, Pending) && w.wwanAny && !w.connected
  }

  ghost function RequestsWithData(sys: System, moves: Schedule): nat
    decreases |moves|
  {
    if moves == [] then 0
    else
      (if AsksWithData(sys, moves[0].0, moves[0].1) then 1 else 0)
      + RequestsWithData(Next(sys, moves[0].0, moves[0].1), moves[1..])
  }

  ghost function RequestsWithoutData(sys: System, moves: Schedule): nat
    decreases |moves|
  {
    if moves == [] then 0
    else
      (if AsksWithoutData(sys, moves[0].0, moves[0].1) then 1 else 0)
      + RequestsWithoutData(Next(sys, moves[0].0, moves[0].1), moves[1..])
  }

  function Delivered(moves: Schedule, r: Reply): nat {
    if moves == [] then 0 else (if moves[0].0 == Delivery(r) then 1 else 0) + Delivered(moves[1..], r)
  }

  lemma MoveCounts(sys: System, m: Move, w: Surroundings)
    requires CanMove(sys, m)
    ensures var next := Next(sys, m, w);
            && next.inFlight[OpenSucceeded] + (if m == Delivery(OpenSucceeded) then 1 else 0)
               == sys.inFlight[OpenSucceeded] + (if AsksWithData(sys, m, w) then 1 else 0)
            && next.inFlight[OpenFailed] + (if m == Delivery(OpenFailed) then 1 else 0)
               == sys.inFlight[OpenFailed] + (if AsksWithoutData(sys, m, w) then 1 else 0)
  {
    MovePosts(sys, m, w);
  }

  /** Over every schedule: the successes delivered or still on their way are as many as the requests that were made with
      data and an accepted APN, the failures as many as those made without data. */
  lemma {:induction false} RepliesMatchRequests(sys: System, moves: Schedule)
    requires Possible(sys, moves)
    ensures After(sys, moves).inFlight[OpenSucceeded] + Delivered(moves, OpenSucceeded)
            == sys.inFlight[OpenSucceeded] + RequestsWithData(sys, moves)
    ensures After(sys, moves).inFlight[OpenFailed] + Delivered(moves, OpenFailed)
            == sys.inFlight[OpenFailed] + RequestsWithoutData(sys, moves)
    decreases |moves|
  {
    if moves != [] {
      MoveCounts(sys, moves[0].0, moves[0].1);
      RepliesMatchRequests(Next(sys, moves[0].0, moves[0].1), moves[1..]);
    }
  }

  // ---------------------------------------------------------------- draining

  ghost predicate OnlyDeliveries(moves: Schedule) {
    forall i :: 0 <= i < |moves| ==> moves[i].0.Delivery?
  }

  /** The state in front, then the replies left. */
  function Fuel(sys: System): nat {
    |sys.inFlight| + (if sys.machine.state == Releasing then 1 else 0)
  }

  lemma DeliveryBurnsFuel(sys: System, r: Reply, w: Surroundings)
    requires r in sys.inFlight
    ensures Fuel(Deliver(sys, r, w)) < Fuel(sys)
  {
    StepAnswers(sys.machine, EventOf(r), w);
  }

  /** With no new client call, any order of deliveries stops after at most one more message than are in
      flight, and when nothing is left the machine rests in RELEASED or ACQUIRED. */
  lemma {:induction false} DrainTerminates(sys: System, moves: Schedule)
    requires Waited(sys) && Possible(sys, moves) && AllServed(sys, moves) && OnlyDeliveries(moves)
    ensures |moves| + Fuel(After(sys, moves)) <= Fuel(sys) <= |sys.inFlight| + 1
    ensures var last := After(sys, moves);
            last.inFlight == multiset{} ==> last.machine.state == Released || last.machine.state == Acquired
    decreases |moves|
  {
    if moves != [] {
      var m, w := moves[0].0, moves[0].1;
      DeliveryBurnsFuel(sys, m.r, w);
      ServedHeadAndTail(sys, moves);
      MoveKeepsWaitedIff(sys, m, w);
      forall i | 0 <= i < |moves[1..]| ensures moves[1..][i].0.Delivery? {
        assert moves[1..][i] == moves[i + 1];
      }
      DrainTerminates(Next(sys, m, w), moves[1..]);
    }
  }

  lemma {:induction false} DrainInOrder(sys: System, w: Surroundings) returns (moves: Schedule)
    requires Waited(sys) && Answered(w)
    ensures Possible(sys, moves) && OnlyDeliveries(moves) && After(sys, moves).inFlight == multiset{}
    ensures forall i :: 0 <= i < |moves| ==> moves[i].1 == w
    decreases Fuel(sys)
  {
    moves := [];
    if r :| r in sys.inFlight {
      DeliveryBurnsFuel(sys, r, w);
      MoveKeepsWaitedIff(sys, Delivery(r), w);
      var rest := DrainInOrder(Deliver(sys, r, w), w);
      moves := [(Delivery(r), w)] + rest;
      assert moves[0] == (Delivery(r), w) && moves[1..] == rest;
      assert Next(sys, moves[0].0, moves[0].1) == Deliver(sys, r, w) && CanMove(sys, moves[0].0);
      forall i | 0 <= i < |moves| ensures moves[i].0.Delivery? && moves[i].1 == w {
        assert i > 0 ==> moves[i] == rest[i - 1];
      }
    }
  }

  /** From every system reached with served requests some order of deliveries empties the queue. */
  lemma SomeDrainEmpties(sys: System, w: Surroundings) returns (moves: Schedule)
    requires Waited(sys) && Answered(w)
    ensures Possible(sys, moves) && AllServed(sys, moves) && OnlyDeliveries(moves)
    ensures After(sys, moves).inFlight == multiset{}
  {
    moves := DrainInOrder(sys, w);
    AnsweredIsServed(sys, moves);
  }
}
