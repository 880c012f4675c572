/**
 The lock-free handshake between the stack raising the first event of a stream and the application
 binding the stream's socket to its event queue.  Every shared access is one step; the two threads
 interleave in any order (sequential consistency).
 */
module PendingEvent {

  datatype Mark = Empty | Writing | Written | Reading | Read

  /** Where the stack thread is: check_stream_event_validation and add_pending_event. */
  datatype StackPc =
    | TestQueue      // socket->qe set?
    | MarkWriting    // pdev_st = WRITING
    | LinkHead       // event_list_append: head, then tail
    | LinkTail
    | MarkWritten    // pdev_st = WRITEN
    | TestAgain      // socket->qe set by now?
    | TestMark       // pdev_st still WRITEN?
    | TestMarkAgain
    | PopHead        // event_list_pop: read head, clear head, clear tail
    | ClearHead
    | ClearTail
    | Publish        // AddTimeEvent
    | Returned

  /** Where the application thread is: bind_socket_with_qe, get_pending_event, qepoll_ctl. */
  datatype AppPc =
    | Bind           // socket->qe = qe
    | CheckMark      // pdev_st == WRITEN?
    | MarkReading    // pdev_st = READING
    | Take           // event_list_pop
    | UnlinkHead
    | UnlinkTail
    | MarkRead       // pdev_st = READ
    | Forward        // AddTimeEvent if an event was taken
    | Finished

  /** Shared: qe, mark, head and tail of the pending list (true when they refer to the event).
      taken: what the application popped; tries: how often the event was passed to AddTimeEvent; delivered: how often
      its ring had room for it. */
  datatype State = State(stack: StackPc, app: AppPc, qe: bool, mark: Mark, head: bool, tail: bool,
                         taken: bool, tries: nat, delivered: nat)

  const START := State(TestQueue, Bind, false, Empty, false, false, false, 0, 0)

  /** AddTimeEvent drops the event if its ring has no room. */
  function Try(s: State, room: bool): State {
    s.(tries := s.tries + 1, delivered := s.delivered + if room then 1 else 0)
  }

  function StackStep(s: State, room: bool): State {
    match s.stack
    case TestQueue => s.(stack := if s.qe then Publish else MarkWriting)
    case MarkWriting => s.(stack := LinkHead, mark := Writing)
    case LinkHead => s.(stack := LinkTail, head := true)
    case LinkTail => s.(stack := MarkWritten, tail := true)
    case MarkWritten => s.(stack := TestAgain, mark := Written)
    case TestAgain => s.(stack := if s.qe then TestMark else Returned)
    case TestMark => s.(stack := if s.mark == Written then TestMarkAgain else Returned)
    case TestMarkAgain => s.(stack := if s.mark == Written then PopHead else Returned)
    case PopHead => s.(stack := if s.head then ClearHead else Publish)
    case ClearHead => s.(stack := ClearTail, head := false)
    case ClearTail => s.(stack := Publish, tail := s.tail && s.head)
    case Publish => Try(s, room).(stack := Returned)
    case Returned => s
  }

  function AppStep(s: State, room: bool): State {
    match s.app
    case Bind => s.(app := CheckMark, qe := true)
    case CheckMark => s.(app := if s.mark == Written then MarkReading else Finished)
    case MarkReading => s.(app := Take, mark := Reading)
    case Take => s.(app := if s.head then UnlinkHead else MarkRead, taken := s.head)
    case UnlinkHead => s.(app := UnlinkTail, head := false)
    case UnlinkTail => s.(app := MarkRead, tail := s.tail && s.head)
    case MarkRead => s.(app := Forward, mark := Read)
    case Forward => (if s.taken then Try(s, room) else s).(app := Finished)
    case Finished => s
  }

  datatype Thread = Stack | App

  /** A move of a thread; room: whether the event's ring has room at that moment. */
  datatype Move = Move(thread: Thread, room: bool)

  function Step(s: State, m: Move): State {
    if m.thread == Stack then StackStep(s, m.room) else AppStep(s, m.room)
  }

  /** The state after the threads moved in the given order. */
  function Exec(order: seq<Move>): State {
    if order == [] then START
    else
      Step(Exec(order[..|order| - 1]), order[|order| - 1])
  }

  ghost predicate Untaken(s: State) { s.tries == 0 && !s.taken }

  /** The event is in the list, in the application's hands, or forwarded; an application that finished before
      the mark was WRITEN left everything in place. */
  ghost predicate WithApp(s: State) {
    match s.app
    case Bind => s.mark == Written && s.head && Untaken(s)
    case CheckMark => s.mark == Written && s.head && Untaken(s)
    case MarkReading => s.mark == Written && s.head && Untaken(s)
    case Take => s.mark == Reading && s.head && Untaken(s)
    case UnlinkHead => s.mark == Reading && s.taken && s.tries == 0
    case UnlinkTail => s.mark == Reading && s.taken && s.tries == 0
    case MarkRead => s.mark == Reading && s.taken && s.tries == 0
    case Forward => s.mark == Read && s.taken && s.tries == 0
    case Finished => (s.mark == Written && s.head && Untaken(s)) || (s.mark == Read && s.taken && s.tries == 1)
  }

  /** Before the mark is WRITEN the application has taken nothing. */
  ghost predicate Early(s: State) { s.app in {Bind, CheckMark, Finished} && Untaken(s) }

  /** The stack has decided to publish itself. */
  ghost predicate Committed(pc: StackPc) { pc in {PopHead, ClearHead, ClearTail, Publish} }

  /** raced: the application took the event after the stack had decided to publish it too.
      Whatever the interleaving, the event is published or some thread is bound to publish it. */
  ghost predicate Inv(s: State, raced: bool) {
    && (s.qe <==> s.app != Bind)
    && if raced then
         && s.taken && (Committed(s.stack) || s.stack == Returned)
         && s.app in {UnlinkHead, UnlinkTail, MarkRead, Forward, Finished}
         && s.tries == (if s.stack == Returned then 1 else 0) + (if s.app == Finished then 1 else 0)
       else
         match s.stack
         case TestQueue => s.mark == Empty && Early(s) && !s.head
         case MarkWriting => s.mark == Empty && Early(s)
         case LinkHead => s.mark == Writing && Early(s)
         case LinkTail => s.mark == Writing && s.head && Early(s)
         case MarkWritten => s.mark == Writing && s.head && Early(s)
         case TestAgain => WithApp(s)
         case TestMark => WithApp(s) && s.qe
         case TestMarkAgain => WithApp(s) && s.qe
         case PopHead => s.head && !s.taken && s.tries == 0 && s.app !in {UnlinkHead, UnlinkTail}
         case ClearHead => s.head && !s.taken && s.tries == 0 && s.app !in {UnlinkHead, UnlinkTail}
         case ClearTail => !s.head && !s.taken && s.tries == 0
         case Publish => !s.head && !s.taken && s.tries == 0
         case Returned =>
           || (s.tries == 1 && !s.head && !s.taken)
           || (WithApp(s) && (s.app == Finished ==> s.tries == 1))
  }

  /** The application is about to pop an event that the stack has decided to pop and publish itself. */
  ghost predicate TakesCommitted(s: State) { s.app == Take && s.stack in {PopHead, ClearHead} }

  /** Somewhere in this order the application popped an event the stack had decided to publish. */
  ghost predicate Raced(order: seq<Move>) {
    && order != []
    && var before := order[..|order| - 1];
       Raced(before) || (order[|order| - 1].thread == App && TakesCommitted(Exec(before)))
  }

  lemma StackStepInv(s: State, raced: bool, room: bool)
    requires Inv(s, raced)
    ensures Inv(StackStep(s, room), raced)
  {
    if !raced {
      StackStepCalm(s, room);
    }
  }

  lemma StackStepCalm(s: State, room: bool)
    requires Inv(s, false)
    ensures Inv(StackStep(s, room), false)
  {
    hide Early, WithApp;
    if s.stack in {MarkWritten, TestMark, TestMarkAgain, TestAgain} {
      StackStepWritten(s, room);
    } else if s.stack == LinkHead || s.stack == LinkTail || s.stack == TestQueue || s.stack == MarkWriting {
      StackStepEarly(s, room);
    }
  }

  lemma StackStepEarly(s: State, room: bool)
    requires Inv(s, false) && s.stack in {TestQueue, MarkWriting, LinkHead, LinkTail}
    ensures Inv(StackStep(s, room), false)
  {
    hide WithApp;
  }

  lemma StackStepWritten(s: State, room: bool)
    requires Inv(s, false) && s.stack in {MarkWritten, TestMark, TestMarkAgain, TestAgain}
    ensures Inv(StackStep(s, room), false)
  {
  }

  lemma AppStepInv(s: State, raced: bool, room: bool)
    requires Inv(s, raced)
    ensures Inv(AppStep(s, room), raced || TakesCommitted(s))
  {
  }

  lemma {:induction false} ExecInv(order: seq<Move>)
    ensures Inv(Exec(order), Raced(order))
  {
    hide Inv, StackStep, AppStep, TakesCommitted;
    if order == [] {
      StartInv();
    } else {
      var before := order[..|order| - 1];
      ExecInv(before);
      StackStepInv(Exec(before), Raced(before), order[|order| - 1].room);
      AppStepInv(Exec(before), Raced(before), order[|order| - 1].room);
    }
  }

  lemma StartInv()
    ensures Inv(START, false)
  {
  }

  /** A move that passes the event to AddTimeEvent while the ring is full. */
  ghost predicate IsRefused(s: State, m: Move) {
    !m.room && if m.thread == Stack then s.stack == Publish else s.app == Forward && s.taken
  }

  /** How often the event was dropped at a full ring. */
  ghost function Refused(order: seq<Move>): nat {
    if order == [] then 0
    else
      var before := order[..|order| - 1];
      Refused(before) + if IsRefused(Exec(before), order[|order| - 1]) then 1 else 0
  }

  lemma StackCounts(s: State, room: bool)
    ensures StackStep(s, room).tries - StackStep(s, room).delivered ==
            s.tries - s.delivered + if s.stack == Publish && !room then 1 else 0
  {
  }

  lemma AppCounts(s: State, room: bool)
    ensures AppStep(s, room).tries - AppStep(s, room).delivered ==
            s.tries - s.delivered + if s.app == Forward && s.taken && !room then 1 else 0
  {
  }

  lemma StepCounts(s: State, m: Move)
    ensures var s' := Step(s, m);
            s'.tries - s'.delivered == s.tries - s.delivered + if IsRefused(s, m) then 1 else 0
  {
    hide StackStep, AppStep;
    StackCounts(s, m.room);
    AppCounts(s, m.room);
  }

  lemma {:induction false} ExecCounts(order: seq<Move>)
    ensures Exec(order).tries - Exec(order).delivered == Refused(order)
  {
    hide Step, IsRefused;
    if order != [] {
      ExecCounts(order[..|order| - 1]);
      StepCounts(Exec(order[..|order| - 1]), order[|order| - 1]);
    }
  }

  /** In every interleaving, once both threads are done, the event was passed to AddTimeEvent twice exactly if the
      application popped it after the stack had decided to publish it, and once otherwise.  It was delivered each
      time its ring had room, so it is lost exactly if the ring was full every time. */
  lemma DeliveredUnlessFull(order: seq<Move>)
    requires Exec(order).stack == Returned && Exec(order).app == Finished
    ensures Exec(order).delivered == (if Raced(order) then 2 else 1) - Refused(order)
    ensures Exec(order).delivered >= 1 <==> Refused(order) < if Raced(order) then 2 else 1
  {
    hide Exec, Raced, Refused;
    ExecInv(order);
    ExecCounts(order);
  }

  // ----- the list is left empty -----

  /** Head and tail of the list: an event that was taken is off the list, and a tail without a head is just being
      cleared. */
  ghost predicate ListOk(s: State) {
    && (s.taken && s.app in {UnlinkTail, MarkRead, Forward, Finished} ==> !s.head)
    && (s.tail && !s.head ==> s.stack == ClearTail || s.app == UnlinkTail)
    && (s.stack in {TestQueue, MarkWriting, LinkHead, LinkTail} ==> !s.tail && !s.taken)
    && (s.app in {UnlinkHead, UnlinkTail} ==> s.taken)
  }

  lemma StackListOk(s: State, raced: bool, room: bool)
    requires Inv(s, raced) && ListOk(s)
    ensures ListOk(StackStep(s, room))
  {
  }

  lemma AppListOk(s: State, raced: bool, room: bool)
    requires Inv(s, raced) && ListOk(s)
    ensures ListOk(AppStep(s, room))
  {
  }

  lemma {:induction false} ExecListOk(order: seq<Move>)
    ensures ListOk(Exec(order))
  {
    hide Inv, ListOk, StackStep, AppStep;
    if order == [] {
      StartListOk();
    } else {
      var before := order[..|order| - 1];
      ExecListOk(before);
      ExecInv(before);
      StackListOk(Exec(before), Raced(before), order[|order| - 1].room);
      AppListOk(Exec(before), Raced(before), order[|order| - 1].room);
    }
  }

  lemma StartListOk()
    ensures ListOk(START)
  {
  }

  /** Once both threads are done the pending list is empty, head and tail. */
  lemma ListLeftEmpty(order: seq<Move>)
    requires Exec(order).stack == Returned && Exec(order).app == Finished
    ensures !Exec(order).head && !Exec(order).tail
  {
    hide Exec, Raced;
    ExecInv(order);
    ExecListOk(order);
  }

  // ----- both threads always get done -----

  function StackRank(pc: StackPc): nat {
    match pc
    case TestQueue => 0
    case MarkWriting => 1
    case LinkHead => 2
    case LinkTail => 3
    case MarkWritten => 4
    case TestAgain => 5
    case TestMark => 6
    case TestMarkAgain => 7
    case PopHead => 8
    case ClearHead => 9
    case ClearTail => 10
    case Publish => 11
    case Returned => 12
  }

  function AppRank(pc: AppPc): nat {
    match pc
    case Bind => 0
    case CheckMark => 1
    case MarkReading => 2
    case Take => 3
    case UnlinkHead => 4
    case UnlinkTail => 5
    case MarkRead => 6
    case Forward => 7
    case Finished => 8
  }

  ghost function Moves(order: seq<Move>, t: Thread): nat {
    if order == [] then 0
    else Moves(order[..|order| - 1], t) + if order[|order| - 1].thread == t then 1 else 0
  }

  ghost function AtMost(n: nat, m: nat): nat { if n <= m then n else m }

  lemma StackStepRank(s: State, room: bool)
    ensures StackRank(s.stack) < StackRank(StackStep(s, room).stack) || (s.stack == Returned && StackStep(s, room) == s)
    ensures StackStep(s, room).app == s.app
  {
  }

  lemma AppStepRank(s: State, room: bool)
    ensures AppRank(s.app) < AppRank(AppStep(s, room).app) || (s.app == Finished && AppStep(s, room) == s)
    ensures AppStep(s, room).stack == s.stack
  {
  }

  lemma {:induction false} ExecProgress(order: seq<Move>)
    ensures StackRank(Exec(order).stack) >= AtMost(Moves(order, Stack), 12)
    ensures AppRank(Exec(order).app) >= AtMost(Moves(order, App), 8)
  {
    hide StackStep, AppStep;
    if order != [] {
      var before := order[..|order| - 1];
      ExecProgress(before);
      StackStepRank(Exec(before), order[|order| - 1].room);
      AppStepRank(Exec(before), order[|order| - 1].room);
    }
  }

  /** Neither thread ever waits: after twelve moves of the stack and eight of the application the event is out. */
  lemma EveryFairOrderDelivers(order: seq<Move>)
    requires Moves(order, Stack) >= 12 && Moves(order, App) >= 8
    ensures Exec(order).stack == Returned && Exec(order).app == Finished
    ensures Exec(order).delivered == (if Raced(order) then 2 else 1) - Refused(order)
  {
    hide Exec, Raced, Refused;
    ExecProgress(order);
    DeliveredUnlessFull(order);
  }

  lemma ExecStep(order: seq<Move>, m: Move)
    ensures Exec(order + [m]) == Step(Exec(order), m)
  {
    assert (order + [m])[..|order|] == order;
  }

  /** n moves of one thread, with room in the ring or without. */
  function Repeat(m: Move, n: nat): seq<Move> { if n == 0 then [] else Repeat(m, n - 1) + [m] }

  function Alone(s: State, m: Move, n: nat): State {
    if n == 0 then s else Step(Alone(s, m, n - 1), m)
  }

  lemma {:induction false} ExecAlone(order: seq<Move>, m: Move, n: nat)
    ensures Exec(order + Repeat(m, n)) == Alone(Exec(order), m, n)
  {
    hide Exec, Step;
    if n == 0 {
      assert order + [] == order;
    } else {
      ExecAlone(order, m, n - 1);
      ExecStep(order + Repeat(m, n - 1), m);
      assert order + Repeat(m, n) == order + Repeat(m, n - 1) + [m];
    }
  }

  lemma StackLinks()
    ensures Alone(START, Move(Stack, true), 5) == State(TestAgain, Bind, false, Written, true, true, false, 0, 0)
  {
  }

  lemma AppBinds()
    ensures Alone(State(TestAgain, Bind, false, Written, true, true, false, 0, 0), Move(App, true), 2)
         == State(TestAgain, MarkReading, true, Written, true, true, false, 0, 0)
  {
  }

  lemma StackCommits()
    ensures Alone(State(TestAgain, MarkReading, true, Written, true, true, false, 0, 0), Move(Stack, true), 3)
         == State(PopHead, MarkReading, true, Written, true, true, false, 0, 0)
  {
  }

  lemma AppForwards()
    ensures Alone(State(PopHead, MarkReading, true, Written, true, true, false, 0, 0), Move(App, true), 6)
         == State(PopHead, Finished, true, Read, false, false, true, 1, 1)
  {
  }

  lemma StackPublishes()
    ensures Alone(State(PopHead, Finished, true, Read, false, false, true, 1, 1), Move(Stack, true), 2)
         == State(Returned, Finished, true, Read, false, false, true, 2, 2)
  {
  }

  /** Exactly-once does not hold: here the application pops the event after the stack's second test of the
      mark, and both publish it. */
  lemma MayDeliverTwice()
    ensures exists order :: Exec(order).stack == Returned && Exec(order).app == Finished && Exec(order).delivered == 2
  {
    hide Exec, Alone, Repeat;
    NoMoves();
    StackLinks();
    ExecAlone([], Move(Stack, true), 5);
    var linked := [] + Repeat(Move(Stack, true), 5);
    AppBinds();
    ExecAlone(linked, Move(App, true), 2);
    var bound := linked + Repeat(Move(App, true), 2);
    StackCommits();
    ExecAlone(bound, Move(Stack, true), 3);
    var committed := bound + Repeat(Move(Stack, true), 3);
    AppForwards();
    ExecAlone(committed, Move(App, true), 6);
    var forwarded := committed + Repeat(Move(App, true), 6);
    StackPublishes();
    ExecAlone(forwarded, Move(Stack, true), 2);
  }

  lemma NoMoves()
    ensures Exec([]) == START
  {
  }

  /** And a full ring loses the event: here the application has bound the socket, and the stack finds no room when it
      publishes. */
  lemma MayBeLost()
    ensures exists order :: Exec(order).stack == Returned && Exec(order).app == Finished && Exec(order).delivered == 0
  {
    hide Exec, Alone, Repeat;
    NoMoves();
    BindFirst();
    ExecAlone([], Move(App, true), 2);
    var bound := [] + Repeat(Move(App, true), 2);
    ExecAlone(bound, Move(Stack, false), 2);
    var order := bound + Repeat(Move(Stack, false), 2);
    assert Exec(order).delivered == 0;
  }

  lemma BindFirst()
    ensures Alone(START, Move(App, true), 2) == State(TestQueue, Finished, true, Empty, false, false, false, 0, 0)
    ensures Alone(State(TestQueue, Finished, true, Empty, false, false, false, 0, 0), Move(Stack, false), 2)
         == State(Returned, Finished, true, Empty, false, false, false, 1, 0)
  {
  }
}
