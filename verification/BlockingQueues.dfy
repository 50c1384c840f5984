/** The multi-producer multi-consumer queue: every interleaving of its critical sections. */
module BlockingQueues {

  /** Where a thread is inside push() or pop(): asleep on its condition variable, or about to look again. */
  datatype Phase<T> = Putting(value: T, asleep: bool) | Getting(asleep: bool)

  /** The queue, the threads inside it, and all that was ever enqueued and dequeued. */
  datatype State<T> = State(
    items: seq<T>, closed: bool, inside: map<nat, Phase<T>>, pushed: seq<T>, popped: seq<T>)

  /** One critical section, from taking the mutex to releasing or waiting on it. */
  datatype Event<T> =
    | TryPush(value: T)
    | TryPop
    | Push(thread: nat, value: T)
    | ResumePush(thread: nat)
    | Pop(thread: nat)
    | ResumePop(thread: nat)
    | Close
    | Spurious(thread: nat)

  datatype Outcome<T> = DONE | REFUSED | CLOSED_QUEUE | BLOCKED | GOT(value: T)

  function WakeGetters<T>(inside: map<nat, Phase<T>>): map<nat, Phase<T>> {
    map t | t in inside :: if inside[t].Getting? then Getting(false) else inside[t]
  }

  function WakePutters<T>(inside: map<nat, Phase<T>>): map<nat, Phase<T>> {
    map t | t in inside :: if inside[t].Putting? then Putting(inside[t].value, false) else inside[t]
  }

  function Enqueue<T>(s: State<T>, v: T): State<T> {
    State(s.items + [v], s.closed, if s.items == [] then WakeGetters(s.inside) else s.inside,
          s.pushed + [v], s.popped)
  }

  function Dequeue<T>(max: nat, s: State<T>): State<T>
    requires s.items != []
  {
    State(s.items[1..], s.closed, if |s.items| == max then WakePutters(s.inside) else s.inside,
          s.pushed, s.popped + [s.items[0]])
  }

  function AttemptPush<T>(max: nat, s: State<T>, t: nat, v: T): (State<T>, Outcome<T>) {
    if |s.items| == max then (s.(inside := s.inside[t := Putting(v, true)]), BLOCKED)
    else (Enqueue(s.(inside := s.inside - {t}), v), DONE)
  }

  function AttemptPop<T>(max: nat, s: State<T>, t: nat): (State<T>, Outcome<T>) {
    if s.items != [] then (Dequeue(max, s.(inside := s.inside - {t})), GOT(s.items[0]))
    else if s.closed then (s.(inside := s.inside - {t}), CLOSED_QUEUE)
    else (s.(inside := s.inside[t := Getting(true)]), BLOCKED)
  }

  predicate Enabled<T>(s: State<T>, e: Event<T>) {
    match e
    case Push(t, _) => t !in s.inside
    case Pop(t) => t !in s.inside
    case ResumePush(t) => t in s.inside && s.inside[t].Putting? && !s.inside[t].asleep
    case ResumePop(t) => t in s.inside && s.inside[t].Getting? && !s.inside[t].asleep
    case Spurious(t) => t in s.inside
    case _ => true
  }

  function Step<T>(max: nat, s: State<T>, e: Event<T>): (State<T>, Outcome<T>)
    requires Enabled(s, e)
  {
    match e
    case TryPush(v) =>
      if s.closed then (s, CLOSED_QUEUE) else if |s.items| == max then (s, REFUSED) else (Enqueue(s, v), DONE)
    case TryPop =>
      if s.items != [] then (Dequeue(max, s), GOT(s.items[0])) else (s, if s.closed then CLOSED_QUEUE else REFUSED)
    case Push(t, v) => if s.closed then (s, CLOSED_QUEUE) else AttemptPush(max, s, t, v)
    case ResumePush(t) => AttemptPush(max, s, t, s.inside[t].value)
    case Pop(t) => AttemptPop(max, s, t)
    case ResumePop(t) => AttemptPop(max, s, t)
    case Close => if s.closed then (s, DONE) else (s.(closed := true, inside := WakeGetters(s.inside)), DONE)
    case Spurious(t) => (s.(inside := s.inside[t := s.inside[t].(asleep := false)]), DONE)
  }

  /** A pop, whichever way it is asked for, and a push. */
  predicate Pops<T>(e: Event<T>) {
    e.TryPop? || e.Pop? || e.ResumePop?
  }

  predicate Pushes<T>(e: Event<T>) {
    e.TryPush? || e.Push? || e.ResumePush?
  }

  /**
   * A pop hands over the first value as long as there is one, closed or not. Only an empty queue turns it away, for
   * good when it is closed, and makes it wait when it is open.
   */
  lemma PopAnswers<T>(max: nat, s: State<T>, e: Event<T>)
    requires Pops(e) && Enabled(s, e)
    ensures var (s', r) := Step(max, s, e);
            && (r.GOT? <==> s.items != [])
            && (r.GOT? ==> [r.value] + s'.items == s.items && s'.popped == s.popped + [r.value])
            && (r == CLOSED_QUEUE <==> s.items == [] && s.closed)
            && (r == BLOCKED <==> s.items == [] && !s.closed && !e.TryPop?)
            && (r == REFUSED <==> s.items == [] && !s.closed && e.TryPop?)
            && (!r.GOT? ==> s'.items == s.items && s'.popped == s.popped)
            && s'.pushed == s.pushed && s'.closed == s.closed
            && (!e.TryPop? ==> (r == BLOCKED <==> e.thread in s'.inside))
            && (r == BLOCKED ==> s'.inside[e.thread] == Getting(true))
  {
  }

  /** A push looks at the closed flag on its way in only. The value goes to the end, or the producer waits. */
  lemma PushAnswers<T>(max: nat, s: State<T>, e: Event<T>)
    requires Pushes(e) && Enabled(s, e)
    ensures var (s', r) := Step(max, s, e);
            var value := if e.ResumePush? then s.inside[e.thread].value else e.value;
            && (r == CLOSED_QUEUE <==> s.closed && !e.ResumePush?)
            && (r == DONE <==> |s.items| != max && (s.closed ==> e.ResumePush?))
            && (r == REFUSED <==> |s.items| == max && !s.closed && e.TryPush?)
            && (r == BLOCKED <==> |s.items| == max && (e.ResumePush? || (e.Push? && !s.closed)))
            && (r == DONE ==> s'.items == s.items + [value] && s'.pushed == s.pushed + [value])
            && (r != DONE ==> s'.items == s.items && s'.pushed == s.pushed)
            && s'.popped == s.popped && s'.closed == s.closed
            && (r == BLOCKED ==> e.thread in s'.inside && s'.inside[e.thread] == Putting(value, true))
            && (e.ResumePush? && r == DONE ==> e.thread !in s'.inside)
  {
  }

  /** Closing closes, keeps what is queued, and the next producer is turned away. */
  lemma CloseAnswers<T>(max: nat, s: State<T>, t: nat, v: T)
    requires t !in s.inside
    ensures var s' := Step(max, s, Close).0;
            && s'.closed && s'.items == s.items && s'.pushed == s.pushed && s'.popped == s.popped
            && t !in s'.inside && Step(max, s', Event.Push(t, v)) == (s', CLOSED_QUEUE)
            && Step(max, s', Event.TryPush(v)) == (s', CLOSED_QUEUE)
  {
  }

  function Start<T>(): State<T> {
    State([], false, map[], [], [])
  }

  ghost predicate Runs<T>(s: State<T>, es: seq<Event<T>>, max: nat)
    decreases |es|
  {
    es != [] ==> Enabled(s, es[0]) && Runs(Step(max, s, es[0]).0, es[1..], max)
  }

  ghost function After<T>(max: nat, s: State<T>, es: seq<Event<T>>): State<T>
    requires Runs(s, es, max)
    decreases |es|
  {
    if es == [] then s else After(max, Step(max, s, es[0]).0, es[1..])
  }

  /** What consumers were handed during a run, in order. */
  ghost function Delivered<T>(max: nat, s: State<T>, es: seq<Event<T>>): seq<T>
    requires Runs(s, es, max)
    decreases |es|
  {
    if es == [] then []
    else
      var r := Step(max, s, es[0]);
      (if r.1.GOT? then [r.1.value] else []) + Delivered(max, r.0, es[1..])
  }

  ghost predicate Sound<T>(max: nat, s: State<T>) {
    && s.pushed == s.popped + s.items
    && |s.items| <= max
    && (forall t | t in s.inside && s.inside[t] == Getting(true) :: s.items == [] && !s.closed)
    && (forall t | t in s.inside && s.inside[t].Putting? && s.inside[t].asleep :: |s.items| == max)
  }

  lemma StepKeepsSound<T>(max: nat, s: State<T>, e: Event<T>)
    requires Sound(max, s) && Enabled(s, e)
    ensures Sound(max, Step(max, s, e).0)
  {
  }

  /**
   * In every interleaving: what was popped is a prefix of what was pushed and the rest is queued; the bound holds;
   * a consumer sleeps only on an empty open queue and a producer only on a full one, so no wake-up is ever lost.
   */
  lemma {:induction false} RunKeepsSound<T>(max: nat, s: State<T>, es: seq<Event<T>>)
    requires Sound(max, s) && Runs(s, es, max)
    ensures Sound(max, After(max, s, es))
    ensures After(max, s, es).popped == s.popped + Delivered(max, s, es)
    ensures s.closed ==> After(max, s, es).closed
    decreases |es|
  {
    if es != [] {
      StepKeepsSound(max, s, es[0]);
      RunKeepsSound(max, Step(max, s, es[0]).0, es[1..]);
    }
  }

  /** From the start, consumers receive exactly the pushed values, in order, up to what is still queued. */
  lemma FirstInFirstOut<T>(max: nat, es: seq<Event<T>>)
    requires Runs(Start(), es, max)
    ensures Delivered(max, Start(), es) <= After(max, Start(), es).pushed
    ensures After(max, Start(), es).items
            == After(max, Start(), es).pushed[|Delivered(max, Start(), es)|..]
  {
    RunKeepsSound(max, Start(), es);
  }

  /** Whoever is told that the queue is closed can be sure that every value pushed has been delivered. */
  lemma NothingLeftWhenClosed<T>(max: nat, es: seq<Event<T>>, e: Event<T>)
    requires Runs(Start(), es, max) && Pops(e) && Enabled(After(max, Start(), es), e)
    requires Step(max, After(max, Start(), es), e).1 == CLOSED_QUEUE
    ensures Delivered(max, Start(), es) == After(max, Start(), es).pushed
  {
    RunKeepsSound(max, Start(), es);
    PopAnswers(max, After(max, Start(), es), e);
  }

  /** As long as values are queued, the next pop delivers the oldest of them, whatever happened before. */
  lemma NextPopDelivers<T>(max: nat, es: seq<Event<T>>, e: Event<T>)
    requires Runs(Start(), es, max) && Pops(e) && Enabled(After(max, Start(), es), e)
    ensures var s := After(max, Start(), es);
            var n := |Delivered(max, Start(), es)|;
            if n < |s.pushed| then Step(max, s, e).1 == GOT(s.pushed[n])
            else Step(max, s, e).1 == if s.closed then CLOSED_QUEUE else if e.TryPop? then REFUSED else BLOCKED
  {
    RunKeepsSound(max, Start(), es);
    PopAnswers(max, After(max, Start(), es), e);
  }

  /** Producers and consumers never sleep at the same time, so some thread can always go on. */
  lemma NoStandstill<T>(max: nat, es: seq<Event<T>>, t: nat, u: nat)
    requires 0 < max && Runs(Start(), es, max)
    requires t in After(max, Start(), es).inside && After(max, Start(), es).inside[t] == Getting(true)
    requires u in After(max, Start(), es).inside && After(max, Start(), es).inside[u].Putting?
    ensures Enabled(After(max, Start(), es), ResumePush(u))
    ensures Step(max, After(max, Start(), es), ResumePush(u)).1 == DONE
    ensures Step(max, After(max, Start(), es), ResumePush(u)).0.inside[t] == Getting(false)
  {
    RunKeepsSound(max, Start(), es);
  }

  ghost function Putters<T>(s: State<T>): set<nat> {
    set t | t in s.inside && s.inside[t].Putting?
  }

  /** Once the queue is closed, only producers that were already inside can still enqueue, once each. */
  lemma StepAfterClose<T>(max: nat, s: State<T>, e: Event<T>)
    requires s.closed && Enabled(s, e)
    ensures var s' := Step(max, s, e).0;
            && s'.closed
            && Putters(s') <= Putters(s)
            && |s'.pushed| + |Putters(s')| == |s.pushed| + |Putters(s)|
    ensures Step(max, s, e).0.pushed != s.pushed <==> e.ResumePush? && |s.items| != max
  {
    var s' := Step(max, s, e).0;
    if e.ResumePush? && |s.items| != max {
      assert Putters(s') == Putters(s) - {e.thread};
    } else {
      assert Putters(s') == Putters(s);
    }
  }

  lemma {:induction false} PushesAfterClose<T>(max: nat, s: State<T>, es: seq<Event<T>>)
    requires s.closed && Runs(s, es, max)
    ensures Putters(After(max, s, es)) <= Putters(s)
    ensures |After(max, s, es).pushed| - |s.pushed| == |Putters(s)| - |Putters(After(max, s, es))|
    decreases |es|
  {
    if es != [] {
      StepAfterClose(max, s, es[0]);
      PushesAfterClose(max, Step(max, s, es[0]).0, es[1..]);
    }
  }

  /** Closing does not stop a waiting producer: here the second value is enqueued after the close. */
  lemma EnqueuedAfterClose()
    ensures var full := Step(1, Start(), Push(1, 'a')).0;
            var waiting := Step(1, full, Push(2, 'b'));
            var closed := Step(1, waiting.0, Close).0;
            var woken := Step(1, closed, TryPop).0;
            && waiting.1 == BLOCKED
            && closed.closed && Enabled(woken, ResumePush(2))
            && Step(1, woken, ResumePush(2)) == (State(['b'], true, map[], ['a', 'b'], ['a']), DONE)
  {
    var full := Step(1, Start(), Push(1, 'a')).0;
    assert full.items == ['a'] && full.inside == map[];
    var waiting := Step(1, full, Push(2, 'b')).0;
    var woken := Step(1, Step(1, waiting, Close).0, TryPop).0;
    assert woken == State([], true, map[2 := Putting('b', false)], ['a'], ['a']);
    var last := Step(1, woken, ResumePush(2)).0;
    assert last.inside == map[] && last.items == ['b'] && last.pushed == ['a', 'b'];
  }

  /** Close wakes every sleeping consumer and no producer. */
  lemma CloseWakesConsumersOnly<T>(max: nat, s: State<T>, t: nat)
    requires !s.closed && t in s.inside
    ensures Step(max, s, Close).0.inside[t] == if s.inside[t].Getting? then Getting(false) else s.inside[t]
  {
  }

  /** The queue object. Each method is one critical section, run with the mutex held. */
  class Queue<T> {
    const maxSize: nat
    var q: seq<T>
    var closed: bool
    var inside: map<nat, Phase<T>>
    ghost var pushed: seq<T>
    ghost var popped: seq<T>

    ghost function View(): State<T>
      reads this
    {
      State(q, closed, inside, pushed, popped)
    }

    constructor (max: nat)
      ensures maxSize == max && View() == Start()
    {
      maxSize, q, closed, inside, pushed, popped := max, [], false, map[], [], [];
    }

    method NotifyNotEmpty()
      modifies this`inside
      ensures inside == WakeGetters(old(inside))
    {
      inside := map t | t in inside :: if inside[t].Getting? then Getting(false) else inside[t];
    }

    method NotifyNotFull()
      modifies this`inside
      ensures inside == WakePutters(old(inside))
    {
      inside := map t | t in inside :: if inside[t].Putting? then Putting(inside[t].value, false) else inside[t];
    }

    method TryPush(value: T) returns (r: Outcome<T>)
      modifies this
      ensures (View(), r) == Step(maxSize, old(View()), Event.TryPush(value))
      ensures r == if closed then CLOSED_QUEUE else if |old(q)| == maxSize then REFUSED else DONE
      ensures q == (if r == DONE then old(q) + [value] else old(q)) && closed == old(closed)
    {
      if closed {
        return CLOSED_QUEUE;
      }
      if |q| == maxSize {
        return REFUSED;
      }
      if q == [] {
        NotifyNotEmpty();
      }
      q, pushed := q + [value], pushed + [value];
      return DONE;
    }

    method TryPop() returns (r: Outcome<T>)
      modifies this
      ensures (View(), r) == Step(maxSize, old(View()), Event.TryPop)
      ensures if old(q) != [] then r == GOT(old(q)[0]) && q == old(q)[1..]
              else r == (if closed then CLOSED_QUEUE else REFUSED) && q == []
      ensures closed == old(closed)
    {
      if q == [] {
        return if closed then CLOSED_QUEUE else REFUSED;
      }
      if |q| == maxSize {
        NotifyNotFull();
      }
      r := GOT(q[0]);
      q, popped := q[1..], popped + [q[0]];
    }

    /** The body of push() from where the closed flag has been checked. */
    method PushLoop(t: nat, value: T) returns (r: Outcome<T>)
      modifies this
      ensures (View(), r) == AttemptPush(maxSize, old(View()), t, value)
      ensures r == if |old(q)| == maxSize then BLOCKED else DONE
      ensures q == (if r == DONE then old(q) + [value] else old(q)) && closed == old(closed)
    {
      if |q| == maxSize {
        inside := inside[t := Putting(value, true)];
        return BLOCKED;
      }
      inside := inside - {t};
      if q == [] {
        NotifyNotEmpty();
      }
      q, pushed := q + [value], pushed + [value];
      return DONE;
    }

    method Push(t: nat, value: T) returns (r: Outcome<T>)
      requires t !in inside
      modifies this
      ensures (View(), r) == Step(maxSize, old(View()), Event.Push(t, value))
      ensures r == if closed then CLOSED_QUEUE else if |old(q)| == maxSize then BLOCKED else DONE
      ensures q == (if r == DONE then old(q) + [value] else old(q)) && closed == old(closed)
    {
      if closed {
        return CLOSED_QUEUE;
      }
      r := PushLoop(t, value);
    }

    /** A producer woken in its wait loop: it looks at the size again, and not at the closed flag. */
    method ResumePush(t: nat) returns (r: Outcome<T>)
      requires Enabled(View(), Event.ResumePush(t))
      modifies this
      ensures (View(), r) == Step(maxSize, old(View()), Event.ResumePush(t))
      ensures r == if |old(q)| == maxSize then BLOCKED else DONE
      ensures q == (if r == DONE then old(q) + [old(inside)[t].value] else old(q)) && closed == old(closed)
    {
      r := PushLoop(t, inside[t].value);
    }

    /** One turn of the loop in pop(). */
    method Pop(t: nat) returns (r: Outcome<T>)
      requires t in inside ==> inside[t] == Getting(false)
      modifies this
      ensures (View(), r) == Step(maxSize, old(View()), if t in old(inside) then ResumePop(t) else Event.Pop(t))
      ensures if old(q) != [] then r == GOT(old(q)[0]) && q == old(q)[1..]
              else r == (if closed then CLOSED_QUEUE else BLOCKED) && q == []
      ensures closed == old(closed)
    {
      if q == [] {
        if closed {
          inside := inside - {t};
          return CLOSED_QUEUE;
        }
        inside := inside[t := Getting(true)];
        return BLOCKED;
      }
      inside := inside - {t};
      if |q| == maxSize {
        NotifyNotFull();
      }
      r := GOT(q[0]);
      q, popped := q[1..], popped + [q[0]];
    }

    method Close()
      modifies this
      ensures View() == Step(maxSize, old(View()), Event.Close).0
      ensures closed && q == old(q)
    {
      if closed {
        return;
      }
      closed := true;
      NotifyNotEmpty();
    }
  }
}
