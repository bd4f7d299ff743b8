/**
 The outbound queues of a stream session: urgent frames, normal frames, and progress, of which only
 the newest are kept. One writer takes frames out. Every region under the queue's lock is one step.
 */
module SessionQueue {

  const PROGRESS_QUEUE_SIZE := 64

  /** A frame is known by its place in the order of all enqueued frames. */
  datatype Kind = Urgent | Normal | Progress

  datatype Item = Item(kind: Kind, order: nat)

  datatype Option<T> = None | Some(value: T)

  datatype Queues = Queues(urgent: seq<Item>, normal: seq<Item>, progress: seq<Item>, count: int, seqNo: nat)

  function WithProgress(q: Queues): Queues {
    var item := Item(Kind.Progress, q.seqNo + 1);
    q.(seqNo := q.seqNo + 1,
       progress := if |q.progress| == PROGRESS_QUEUE_SIZE then q.progress[1..] + [item] else q.progress + [item])
  }

  /** One try at a bounded enqueue: it fails while the queue is full. */
  function WithFrame(q: Queues, urgent: bool, limit: nat): Queues {
    var item := Item(if urgent then Urgent else Normal, q.seqNo + 1);
    if q.count >= limit then q
    else if urgent then q.(urgent := q.urgent + [item], count := q.count + 1, seqNo := q.seqNo + 1)
    else q.(normal := q.normal + [item], count := q.count + 1, seqNo := q.seqNo + 1)
  }

  /** Urgent frames first; the other two by age. */
  function Chosen(q: Queues): Option<Item> {
    if q.urgent != [] then Some(q.urgent[0])
    else if q.normal != [] && (q.progress == [] || q.normal[0].order < q.progress[0].order) then Some(q.normal[0])
    else if q.progress != [] then Some(q.progress[0])
    else None
  }

  function Dequeued(q: Queues): Queues {
    var counted := if Chosen(q).Some? && Chosen(q).value.kind != Kind.Progress then q.count - 1 else q.count;
    if q.urgent != [] then q.(urgent := q.urgent[1..], count := counted)
    else if q.normal != [] && (q.progress == [] || q.normal[0].order < q.progress[0].order) then
      q.(normal := q.normal[1..], count := counted)
    else if q.progress != [] then q.(progress := q.progress[1..], count := counted)
    else q
  }

  class OutboundQueue {
    var urgentQ: seq<Item>
    var normalQ: seq<Item>
    var progressQ: seq<Item>
    var queueCount: int
    var queueSeq: nat
    var progressDropped: nat
    const sendQueue: nat

    constructor (sendQueue: nat)
      ensures View() == Queues([], [], [], 0, 0) && progressDropped == 0 && this.sendQueue == sendQueue
    {
      urgentQ, normalQ, progressQ, queueCount, queueSeq, progressDropped := [], [], [], 0, 0, 0;
      this.sendQueue := sendQueue;
    }

    function View(): Queues
      reads this
    {
      Queues(urgentQ, normalQ, progressQ, queueCount, queueSeq)
    }

    /** Progress always finds room: a full queue loses its oldest frame. */
    method EnqueueProgress()
      modifies this
      ensures View() == WithProgress(old(View()))
      ensures progressDropped == old(progressDropped) + if |old(progressQ)| == PROGRESS_QUEUE_SIZE then 1 else 0
    {
      queueSeq := queueSeq + 1;
      if |progressQ| == PROGRESS_QUEUE_SIZE {
        progressQ := progressQ[1..] + [Item(Kind.Progress, queueSeq)];
        progressDropped := progressDropped + 1;
      } else {
        progressQ := progressQ + [Item(Kind.Progress, queueSeq)];
      }
    }

    method TryEnqueue(urgent: bool) returns (accepted: bool)
      modifies this
      ensures View() == WithFrame(old(View()), urgent, sendQueue)
      ensures accepted == (old(queueCount) < sendQueue) && progressDropped == old(progressDropped)
    {
      if queueCount >= sendQueue {
        return false;
      }
      queueSeq := queueSeq + 1;
      if urgent {
        urgentQ := urgentQ + [Item(Urgent, queueSeq)];
      } else {
        normalQ := normalQ + [Item(Normal, queueSeq)];
      }
      queueCount := queueCount + 1;
      return true;
    }

    method Dequeue() returns (item: Option<Item>)
      modifies this
      ensures View() == Dequeued(old(View())) && item == Chosen(old(View())) && progressDropped == old(progressDropped)
    {
      if |urgentQ| > 0 {
        item := Some(urgentQ[0]);
        urgentQ := urgentQ[1..];
      } else if |normalQ| > 0 && |progressQ| > 0 && normalQ[0].order < progressQ[0].order {
        item := Some(normalQ[0]);
        normalQ := normalQ[1..];
      } else if |normalQ| > 0 && |progressQ| == 0 {
        item := Some(normalQ[0]);
        normalQ := normalQ[1..];
      } else if |progressQ| > 0 {
        item := Some(progressQ[0]);
        progressQ := progressQ[1..];
      } else {
        return None;
      }
      if item.value.kind != Kind.Progress {
        queueCount := queueCount - 1;
      }
    }

    method Clear()
      modifies this
      ensures View() == Queues([], [], [], 0, old(queueSeq)) && progressDropped == old(progressDropped)
    {
      urgentQ, normalQ, progressQ, queueCount := [], [], [], 0;
    }
  }

  // ----- Runs -----

  /**
   The queues, what became of every frame, whether the session is over, and whether a sender holds
   the queue's lock after finding that it was not.
   */
  datatype State = State(
    q: Queues, limit: nat, handed: seq<Item>, dropped: seq<Item>, cleared: seq<Item>, accepted: seq<Item>, done: bool, sending: bool)

  datatype Event = Look | NewProgress | Frame(urgent: bool) | Take | End | Clear

  function Start(limit: nat): State { State(Queues([], [], [], 0, 0), limit, [], [], [], [], false, false) }

  /**
   A sender looks for the end under the queue's lock and then enqueues. The session ends under another
   lock, so it can end in between; the queues are cleared after that, under the queue's lock again.
   */
  predicate Enabled(s: State, e: Event) {
    match e
    case Look => !s.sending && !s.done
    case NewProgress => s.sending
    case Frame(_) => s.sending
    case Take => !s.sending && Chosen(s.q).Some?
    case End => true
    case Clear => !s.sending && s.done
  }

  function Next(s: State, e: Event): State
    requires Enabled(s, e)
  {
    match e
    case Look => s.(sending := true)
    case NewProgress =>
      s.(q := WithProgress(s.q), sending := false, accepted := s.accepted + [Item(Kind.Progress, s.q.seqNo + 1)],
         dropped := if |s.q.progress| == PROGRESS_QUEUE_SIZE then s.dropped + [s.q.progress[0]] else s.dropped)
    case Frame(urgent) =>
      s.(q := WithFrame(s.q, urgent, s.limit), sending := false,
         accepted := if s.q.count < s.limit then s.accepted + [Item(if urgent then Urgent else Normal, s.q.seqNo + 1)] else s.accepted)
    case Take => s.(q := Dequeued(s.q), handed := s.handed + [Chosen(s.q).value])
    case End => s.(done := true)
    case Clear =>
      s.(q := Queues([], [], [], 0, s.q.seqNo), cleared := s.cleared + s.q.urgent + s.q.normal + s.q.progress)
  }

  ghost predicate Reaches(s: State, events: seq<Event>, t: State)
    decreases |events|
  {
    if events == [] then t == s else Enabled(s, events[0]) && Reaches(Next(s, events[0]), events[1..], t)
  }

  predicate Rising(items: seq<Item>) { forall i, j :: 0 <= i < j < |items| ==> items[i].order < items[j].order }

  predicate Above(items: seq<Item>, order: nat) { forall i :: 0 <= i < |items| ==> order < items[i].order }

  predicate UpTo(items: seq<Item>, order: nat) { forall i :: 0 <= i < |items| ==> items[i].order <= order }

  predicate AreAll(items: seq<Item>, kind: Kind) { forall i :: 0 <= i < |items| ==> items[i].kind == kind }

  /** The frames handed to the writer that were not urgent. */
  function Ordinary(items: seq<Item>): seq<Item> {
    if items == [] then []
    else
      var front, last := items[..|items| - 1], items[|items| - 1];
      if last.kind == Urgent then Ordinary(front) else Ordinary(front) + [last]
  }

  function Urgents(items: seq<Item>): seq<Item> {
    if items == [] then []
    else
      var front, last := items[..|items| - 1], items[|items| - 1];
      if last.kind == Urgent then Urgents(front) + [last] else Urgents(front)
  }

  /** The place of the last frame of a list. */
  function Mark(items: seq<Item>): nat { if items == [] then 0 else items[|items| - 1].order }

  function Queued(q: Queues): multiset<Item> { multiset(q.urgent) + multiset(q.normal) + multiset(q.progress) }

  predicate Bounded(q: Queues, limit: nat) {
    q.count == |q.urgent| + |q.normal| <= limit && |q.progress| <= PROGRESS_QUEUE_SIZE
  }

  predicate Sorted(q: Queues) {
    && Rising(q.urgent) && Rising(q.normal) && Rising(q.progress)
    && AreAll(q.urgent, Urgent) && AreAll(q.normal, Normal) && AreAll(q.progress, Kind.Progress)
    && UpTo(q.urgent, q.seqNo) && UpTo(q.normal, q.seqNo) && UpTo(q.progress, q.seqNo)
    && forall i, j :: 0 <= i < |q.normal| && 0 <= j < |q.progress| ==> q.normal[i].order != q.progress[j].order
  }

  /** All that waits in turn is younger than all that was handed over in turn. */
  predicate HandedFits(q: Queues, handed: seq<Item>) {
    && Rising(Ordinary(handed)) && Mark(Ordinary(handed)) <= q.seqNo
    && Above(q.normal, Mark(Ordinary(handed))) && Above(q.progress, Mark(Ordinary(handed)))
  }

  predicate UrgentFits(q: Queues, handed: seq<Item>) {
    Rising(Urgents(handed)) && Mark(Urgents(handed)) <= q.seqNo && Above(q.urgent, Mark(Urgents(handed)))
  }

  predicate DroppedFits(q: Queues, dropped: seq<Item>) {
    Rising(dropped) && AreAll(dropped, Kind.Progress) && Mark(dropped) <= q.seqNo && Above(q.progress, Mark(dropped))
  }

  predicate InOrder(s: State) { HandedFits(s.q, s.handed) && UrgentFits(s.q, s.handed) && DroppedFits(s.q, s.dropped) }

  predicate Balanced(s: State) {
    && multiset(s.accepted) == multiset(s.handed) + multiset(s.dropped) + multiset(s.cleared) + Queued(s.q)
    && Numbered(s)
  }

  predicate Numbered(s: State) { |s.accepted| == s.q.seqNo && forall i :: 0 <= i < |s.accepted| ==> s.accepted[i].order == i + 1 }

  predicate Invariant(s: State) { Bounded(s.q, s.limit) && Sorted(s.q) && InOrder(s) && Balanced(s) }

  lemma BoundedStep(s: State, e: Event)
    requires Bounded(s.q, s.limit) && Sorted(s.q) && Enabled(s, e)
    ensures Bounded(Next(s, e).q, Next(s, e).limit)
  {
  }

  // The oldest progress frame may go without harm.
  lemma SortedDrop(q: Queues)
    requires Sorted(q) && q.progress != []
    ensures Sorted(q.(progress := q.progress[1..]))
  {
  }

  lemma SortedPush(q: Queues)
    requires Sorted(q)
    ensures Sorted(q.(progress := q.progress + [Item(Kind.Progress, q.seqNo + 1)], seqNo := q.seqNo + 1))
  {
  }

  lemma SortedProgress(q: Queues)
    requires Sorted(q)
    ensures Sorted(WithProgress(q))
  {
    hide Sorted;
    if |q.progress| == PROGRESS_QUEUE_SIZE {
      SortedDrop(q);
      SortedPush(q.(progress := q.progress[1..]));
    } else {
      SortedPush(q);
    }
  }

  lemma SortedFrame(q: Queues, urgent: bool, limit: nat)
    requires Sorted(q)
    ensures Sorted(WithFrame(q, urgent, limit))
  {
  }

  lemma SortedTake(q: Queues)
    requires Sorted(q)
    ensures Sorted(Dequeued(q))
  {
    hide Sorted;
    if q.urgent != [] {
      SortedUrgentPop(q);
    } else if q.normal != [] && (q.progress == [] || q.normal[0].order < q.progress[0].order) {
      SortedNormalPop(q);
    } else if q.progress != [] {
      SortedDrop(q);
    }
    SortedCount(Dequeued(q).(count := q.count), Dequeued(q).count);
  }

  lemma SortedUrgentPop(q: Queues)
    requires Sorted(q) && q.urgent != []
    ensures Sorted(q.(urgent := q.urgent[1..]))
  {
  }

  lemma SortedNormalPop(q: Queues)
    requires Sorted(q) && q.normal != []
    ensures Sorted(q.(normal := q.normal[1..]))
  {
  }

  lemma SortedCount(q: Queues, count: int)
    requires Sorted(q)
    ensures Sorted(q.(count := count))
  {
  }

  lemma SortedStep(s: State, e: Event)
    requires Sorted(s.q) && Enabled(s, e)
    ensures Sorted(Next(s, e).q)
  {
    hide WithProgress, WithFrame, Dequeued, Chosen;
    match e
    case NewProgress => SortedProgress(s.q);
    case Frame(urgent) => SortedFrame(s.q, urgent, s.limit);
    case Take => SortedTake(s.q);
    case _ =>
  }

  lemma OrdinarySnoc(items: seq<Item>, item: Item)
    ensures Ordinary(items + [item]) == if item.kind == Urgent then Ordinary(items) else Ordinary(items) + [item]
  {
    assert (items + [item])[..|items|] == items;
  }

  lemma RisingSnoc(items: seq<Item>, item: Item)
    requires Rising(items) && Mark(items) < item.order
    ensures Rising(items + [item]) && Mark(items + [item]) == item.order
  {
  }

  // The chosen frame comes before everything else that is not urgent.
  lemma ChosenComesFirst(q: Queues)
    requires Sorted(q) && Chosen(q).Some?
    ensures var item := Chosen(q).value;
            item.kind != Urgent ==> Above(Dequeued(q).normal, item.order) && Above(Dequeued(q).progress, item.order)
    ensures Chosen(q).value.order <= q.seqNo
    ensures Chosen(q).value.kind == Urgent ==> Dequeued(q).normal == q.normal && Dequeued(q).progress == q.progress
  {
  }

  lemma ChosenIsNew(q: Queues, handed: seq<Item>)
    requires HandedFits(q, handed) && Chosen(q).Some? && Chosen(q).value.kind != Urgent && Sorted(q)
    ensures Mark(Ordinary(handed)) < Chosen(q).value.order
  {
    hide Ordinary;
  }

  lemma HandedTake(q: Queues, handed: seq<Item>)
    requires Sorted(q) && HandedFits(q, handed) && Chosen(q).Some?
    ensures HandedFits(Dequeued(q), handed + [Chosen(q).value])
  {
    hide Sorted, Rising, Ordinary, Chosen;
    var item := Chosen(q).value;
    ChosenComesFirst(q);
    OrdinarySnoc(handed, item);
    if item.kind != Urgent {
      ChosenIsNew(q, handed);
      RisingSnoc(Ordinary(handed), item);
    }
  }

  lemma UrgentsSnoc(items: seq<Item>, item: Item)
    ensures Urgents(items + [item]) == if item.kind == Urgent then Urgents(items) + [item] else Urgents(items)
  {
    assert (items + [item])[..|items|] == items;
  }

  lemma UrgentTake(q: Queues, handed: seq<Item>)
    requires Sorted(q) && UrgentFits(q, handed) && Chosen(q).Some?
    ensures UrgentFits(Dequeued(q), handed + [Chosen(q).value])
  {
    hide Urgents;
    UrgentsSnoc(handed, Chosen(q).value);
    if q.urgent != [] { RisingSnoc(Urgents(handed), q.urgent[0]); }
  }

  lemma UrgentPush(q: Queues, handed: seq<Item>, urgent: bool, limit: nat)
    requires UrgentFits(q, handed)
    ensures UrgentFits(WithProgress(q), handed) && UrgentFits(WithFrame(q, urgent, limit), handed)
    ensures UrgentFits(Queues([], [], [], 0, q.seqNo), handed)
  {
    hide Urgents, Rising;
  }

  lemma HandedPush(q: Queues, handed: seq<Item>, urgent: bool, limit: nat)
    requires HandedFits(q, handed)
    ensures HandedFits(WithProgress(q), handed) && HandedFits(WithFrame(q, urgent, limit), handed)
    ensures HandedFits(Queues([], [], [], 0, q.seqNo), handed)
  {
    hide Ordinary, Rising;
  }

  lemma DroppedStep(q: Queues, dropped: seq<Item>, urgent: bool, limit: nat)
    requires Sorted(q) && DroppedFits(q, dropped)
    ensures DroppedFits(WithFrame(q, urgent, limit), dropped) && DroppedFits(Dequeued(q), dropped)
    ensures DroppedFits(Queues([], [], [], 0, q.seqNo), dropped)
    ensures |q.progress| != PROGRESS_QUEUE_SIZE ==> DroppedFits(WithProgress(q), dropped)
  {
    hide Rising;
  }

  lemma DroppedPush(q: Queues, dropped: seq<Item>)
    requires Sorted(q) && DroppedFits(q, dropped) && |q.progress| == PROGRESS_QUEUE_SIZE
    ensures DroppedFits(WithProgress(q), dropped + [q.progress[0]])
  {
    RisingSnoc(dropped, q.progress[0]);
  }

  lemma InOrderStep(s: State, e: Event)
    requires Sorted(s.q) && InOrder(s) && Enabled(s, e)
    ensures InOrder(Next(s, e))
  {
    hide Sorted, HandedFits, UrgentFits, DroppedFits, WithProgress, WithFrame, Dequeued, Chosen;
    var urgent := e.Frame? && e.urgent;
    HandedPush(s.q, s.handed, urgent, s.limit);
    UrgentPush(s.q, s.handed, urgent, s.limit);
    DroppedStep(s.q, s.dropped, urgent, s.limit);
    match e
    case Take =>
      HandedTake(s.q, s.handed);
      UrgentTake(s.q, s.handed);
    case NewProgress => if |s.q.progress| == PROGRESS_QUEUE_SIZE { DroppedPush(s.q, s.dropped); }
    case _ =>
  }

  lemma Pop(items: seq<Item>)
    requires items != []
    ensures multiset(items) == multiset{items[0]} + multiset(items[1..])
  {
    assert items == [items[0]] + items[1..];
  }

  lemma TakeSum(q: Queues)
    requires Chosen(q).Some?
    ensures Queued(q) == multiset{Chosen(q).value} + Queued(Dequeued(q))
    ensures Dequeued(q).seqNo == q.seqNo
  {
    if q.urgent != [] {
      Pop(q.urgent);
    } else if q.normal != [] && (q.progress == [] || q.normal[0].order < q.progress[0].order) {
      Pop(q.normal);
    } else {
      Pop(q.progress);
    }
  }

  lemma ProgressSum(q: Queues)
    ensures Queued(WithProgress(q)) + (if |q.progress| == PROGRESS_QUEUE_SIZE then multiset{q.progress[0]} else multiset{})
         == Queued(q) + multiset{Item(Kind.Progress, q.seqNo + 1)}
  {
    if q.progress != [] { Pop(q.progress); }
  }

  lemma FrameSum(q: Queues, urgent: bool, limit: nat)
    requires q.count < limit
    ensures Queued(WithFrame(q, urgent, limit)) == Queued(q) + multiset{Item(if urgent then Urgent else Normal, q.seqNo + 1)}
  {
  }

  lemma ClearSum(cleared: seq<Item>, q: Queues)
    ensures multiset(cleared + q.urgent + q.normal + q.progress) == multiset(cleared) + Queued(q)
    ensures Queued(Queues([], [], [], 0, q.seqNo)) == multiset{}
  {
  }

  // Moving a frame from one place to another keeps the balance.
  lemma Moved(all: multiset<Item>, from: multiset<Item>, to: multiset<Item>, x: Item, rest: multiset<Item>, left: multiset<Item>)
    requires all == to + rest + from && from == multiset{x} + left
    ensures all == (to + multiset{x}) + rest + left
  {
  }

  lemma BalancedTake(s: State)
    requires Balanced(s) && Enabled(s, Take)
    ensures Balanced(Next(s, Take))
  {
    hide Queued, Dequeued, Chosen;
    TakeSum(s.q);
    Moved(multiset(s.accepted), Queued(s.q), multiset(s.handed), Chosen(s.q).value,
          multiset(s.dropped) + multiset(s.cleared), Queued(Dequeued(s.q)));
  }

  lemma BalancedProgress(s: State)
    requires Balanced(s)  && Enabled(s, NewProgress)
    ensures Balanced(Next(s, NewProgress))
  {
    hide Queued, WithProgress;
    ProgressSum(s.q);
    ProgressNumber(s.q);
    var t, x := Next(s, NewProgress), Item(Kind.Progress, s.q.seqNo + 1);
    assert multiset(t.accepted) == multiset(s.accepted) + multiset{x};
    if |s.q.progress| == PROGRESS_QUEUE_SIZE {
      var y := s.q.progress[0];
      assert multiset(t.dropped) == multiset(s.dropped) + multiset{y};
      Exchanged(multiset(s.accepted), multiset(s.handed), multiset(s.dropped), multiset(s.cleared), Queued(s.q), Queued(t.q), x, y);
    } else {
      assert Queued(t.q) + multiset{} == Queued(t.q);
    }
  }

  lemma Exchanged(all: multiset<Item>, h: multiset<Item>, d: multiset<Item>, c: multiset<Item>,
                  was: multiset<Item>, now: multiset<Item>, x: Item, y: Item)
    requires all == h + d + c + was && now + multiset{y} == was + multiset{x}
    ensures all + multiset{x} == h + (d + multiset{y}) + c + now
  {
    forall i ensures (all + multiset{x})[i] == (h + (d + multiset{y}) + c + now)[i] {
      assert (now + multiset{y})[i] == (was + multiset{x})[i];
    }
  }

  lemma ProgressNumber(q: Queues)
    ensures WithProgress(q).seqNo == q.seqNo + 1
  {
  }

  lemma BalancedFrame(s: State, urgent: bool)
    requires Balanced(s) && Enabled(s, Frame(urgent))
    ensures Balanced(Next(s, Frame(urgent)))
  {
    hide Queued, WithFrame, Numbered;
    FrameNumber(s.q, urgent, s.limit);
    NumberedFrame(s, urgent);
    if s.q.count < s.limit { FrameBalance(s, urgent); }
  }

  lemma NumberedFrame(s: State, urgent: bool)
    requires Numbered(s) && Enabled(s, Frame(urgent))
    ensures Numbered(Next(s, Frame(urgent)))
  {
    hide WithFrame;
    FrameNumber(s.q, urgent, s.limit);
  }

  // The frame is in its queue and among the accepted ones.
  lemma FrameBalance(s: State, urgent: bool)
    requires Balanced(s) && Enabled(s, Frame(urgent)) && s.q.count < s.limit
    ensures var t := Next(s, Frame(urgent));
            multiset(t.accepted) == multiset(t.handed) + multiset(t.dropped) + multiset(t.cleared) + Queued(t.q)
  {
    var rest := multiset(s.handed) + multiset(s.dropped) + multiset(s.cleared);
    assert multiset(s.accepted) == rest + Queued(s.q);
    hide Queued, WithFrame, Balanced;
    FrameSum(s.q, urgent, s.limit);
    var t, x := Next(s, Frame(urgent)), Item(if urgent then Urgent else Normal, s.q.seqNo + 1);
    assert multiset(t.accepted) == multiset(s.accepted) + multiset{x};
    OneMore(multiset(s.accepted), rest, Queued(s.q), Queued(t.q), x);
  }

  lemma FrameNumber(q: Queues, urgent: bool, limit: nat)
    ensures if q.count < limit then WithFrame(q, urgent, limit).seqNo == q.seqNo + 1 else WithFrame(q, urgent, limit) == q
  {
  }

  lemma OneMore(all: multiset<Item>, rest: multiset<Item>, was: multiset<Item>, now: multiset<Item>, x: Item)
    requires all == rest + was && now == was + multiset{x}
    ensures all + multiset{x} == rest + now
  {
  }

  lemma BalancedClear(s: State)
    requires Balanced(s) && Enabled(s, Clear)
    ensures Balanced(Next(s, Clear))
  {
    hide Queued;
    ClearSum(s.cleared, s.q);
  }

  lemma BalancedStep(s: State, e: Event)
    requires Balanced(s) && Enabled(s, e)
    ensures Balanced(Next(s, e))
  {
    hide Balanced;
    match e
    case Take => BalancedTake(s);
    case NewProgress => BalancedProgress(s);
    case Frame(urgent) => BalancedFrame(s, urgent);
    case Clear => BalancedClear(s);
    case End => BalancedFlags(s, true, s.sending);
    case Look => BalancedFlags(s, s.done, true);
  }

  lemma BalancedFlags(s: State, done: bool, sending: bool)
    requires Balanced(s)
    ensures Balanced(s.(done := done, sending := sending))
  {
  }

  lemma StepKeeps(s: State, e: Event)
    requires Invariant(s) && Enabled(s, e)
    ensures Invariant(Next(s, e))
  {
    hide Bounded, Sorted, InOrder, Balanced;
    BoundedStep(s, e);
    SortedStep(s, e);
    InOrderStep(s, e);
    BalancedStep(s, e);
  }

  lemma {:induction false} RunKeeps(s: State, events: seq<Event>, t: State)
    requires Invariant(s) && Reaches(s, events, t)
    ensures Invariant(t) && t.limit == s.limit
    decreases |events|
  {
    hide Invariant;
    if events != [] {
      StepKeeps(s, events[0]);
      RunKeeps(Next(s, events[0]), events[1..], t);
    }
  }

  lemma FromStart(limit: nat, events: seq<Event>, s: State)
    requires Reaches(Start(limit), events, s)
    ensures Invariant(s) && s.limit == limit
  {
    RunKeeps(Start(limit), events, s);
  }

  /** The counter is the length of both bounded queues, within its limit, and progress stays within its own. */
  lemma QueuesAreBounded(limit: nat, events: seq<Event>, s: State)
    requires Reaches(Start(limit), events, s)
    ensures s.q.count == |s.q.urgent| + |s.q.normal| <= limit
    ensures |s.q.progress| <= PROGRESS_QUEUE_SIZE
  {
    FromStart(limit, events, s);
  }

  /** Frames that are not urgent reach the writer in the order in which they were enqueued, before all that wait. */
  lemma WriterKeepsOrder(limit: nat, events: seq<Event>, s: State)
    requires Reaches(Start(limit), events, s)
    ensures Rising(Ordinary(s.handed))
    ensures forall i, waiting :: 0 <= i < |Ordinary(s.handed)| && (waiting in s.q.normal || waiting in s.q.progress) ==>
              Ordinary(s.handed)[i].order < waiting.order
  {
    hide Ordinary;
    FromStart(limit, events, s);
    forall i, waiting | 0 <= i < |Ordinary(s.handed)| && (waiting in s.q.normal || waiting in s.q.progress)
      ensures Ordinary(s.handed)[i].order < waiting.order
    {
      assert Ordinary(s.handed)[i].order <= Mark(Ordinary(s.handed));
    }
  }

  /** Urgent frames keep their order among themselves, and none waits while another frame is taken. */
  lemma UrgentGoesFirst(limit: nat, events: seq<Event>, s: State)
    requires Reaches(Start(limit), events, s)
    ensures Rising(Urgents(s.handed))
    ensures Enabled(s, Take) && Chosen(s.q).value.kind != Urgent ==> s.q.urgent == []
  {
    hide Urgents;
    FromStart(limit, events, s);
  }

  /**
   Every accepted frame is in a queue, was handed to the writer, or was dropped or cleared, once and
   in one place only; what is dropped is progress, older than all progress still queued.
   */
  lemma FramesAreConserved(limit: nat, events: seq<Event>, s: State)
    requires Reaches(Start(limit), events, s)
    ensures multiset(s.accepted) == multiset(s.handed) + multiset(s.dropped) + multiset(s.cleared) + Queued(s.q)
    ensures forall i, j :: 0 <= i < j < |s.accepted| ==> s.accepted[i].order < s.accepted[j].order
    ensures AreAll(s.dropped, Kind.Progress)
    ensures forall i, j :: 0 <= i < |s.dropped| && 0 <= j < |s.q.progress| ==> s.dropped[i].order < s.q.progress[j].order
  {
    FromStart(limit, events, s);
  }

  /** After the end of the session at most one frame is accepted: that of a sender that looked before. */
  lemma {:induction false} OneLateFrame(s: State, events: seq<Event>, t: State)
    requires s.done && Reaches(s, events, t)
    ensures |t.accepted| <= |s.accepted| + (if s.sending then 1 else 0) - (if t.sending then 1 else 0)
    ensures t.done && (t.sending ==> s.sending)
    decreases |events|
  {
    hide WithProgress, WithFrame, Dequeued, Chosen;
    if events != [] {
      OneLateFrame(Next(s, events[0]), events[1..], t);
    }
  }

  /** Once the session is over and its queues are cleared, the writer gets nothing more, and nothing is accepted. */
  lemma NothingAfterClear(s: State, events: seq<Event>, t: State)
    requires Enabled(s, Clear) && Reaches(Next(s, Clear), events, t)
    ensures t.handed == s.handed && t.accepted == s.accepted
  {
    StaysClear(Next(s, Clear), events, t);
  }

  lemma {:induction false} StaysClear(s: State, events: seq<Event>, t: State)
    requires s.done && !s.sending && Chosen(s.q) == None && Reaches(s, events, t)
    ensures t.handed == s.handed && t.accepted == s.accepted
    decreases |events|
  {
    if events != [] {
      StaysClear(Next(s, events[0]), events[1..], t);
    }
  }

  /** The writer never waits beside a queued frame, and every frame it takes leaves its queue. */
  lemma WriterIsServed(limit: nat, events: seq<Event>, s: State)
    requires Reaches(Start(limit), events, s) && !s.sending
    ensures Enabled(s, Take) <==> Queued(s.q) != multiset{}
    ensures Enabled(s, Take) ==>
              var t, item := Next(s, Take), Chosen(s.q).value;
              && t.handed == s.handed + [item] && Queued(s.q) == Queued(t.q) + multiset{item}
              && (item.kind != Urgent ==> forall waiting :: waiting in Queued(t.q) ==> waiting.kind != Urgent && item.order < waiting.order)
  {
    hide Queued, Chosen, Dequeued, Sorted, InOrder, Balanced, Bounded;
    FromStart(limit, events, s);
    ChosenIff(s.q);
    if Enabled(s, Take) {
      TakeSum(s.q);
      if Chosen(s.q).value.kind != Urgent { OthersComeLater(s.q); }
    }
  }

  lemma ChosenIff(q: Queues)
    ensures Chosen(q).Some? <==> Queued(q) != multiset{}
  {
    if q.urgent != [] { Pop(q.urgent); }
    if q.normal != [] { Pop(q.normal); }
    if q.progress != [] { Pop(q.progress); }
  }

  lemma OthersComeLater(q: Queues)
    requires Sorted(q) && Chosen(q).Some? && Chosen(q).value.kind != Urgent
    ensures forall waiting :: waiting in Queued(Dequeued(q)) ==> waiting.kind != Urgent && Chosen(q).value.order < waiting.order
  {
    var t, item := Dequeued(q), Chosen(q).value;
    ChosenComesFirst(q);
    assert t.urgent == [] && AreAll(t.normal, Normal) && AreAll(t.progress, Kind.Progress);
    hide Sorted, Chosen, Dequeued;
    forall waiting | waiting in Queued(t) ensures waiting.kind != Urgent && item.order < waiting.order {
      if waiting in t.normal {
        var i :| 0 <= i < |t.normal| && t.normal[i] == waiting;
      } else {
        var i :| 0 <= i < |t.progress| && t.progress[i] == waiting;
      }
    }
  }
}
