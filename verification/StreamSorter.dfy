/** The worker of pkg/notifications/sorter.go with its heap: every run of its loop is a run of SorterProtocol. */
module StreamSorter {
  import opened Wrappers
  import opened SubmissionHeap
  import opened SorterProtocol

  /** A case of the worker's select, as what happens in its environment. */
  datatype Choice =
    | RegisterOut(out: Out)
    | CloseOut(out: Out)
    | Submission(sub: SubmissionHeap.Submission)
    | Due
    | Callback
    | Done

  /** How long it takes to come to the top of the loop and from there to the select, and the case that it would take. */
  datatype Round = Round(untilTop: nat, untilSelect: nat, choice: Choice)

  /* ---------- What a round of the loop has to do ---------- */

  /** The smallest Redis Stream ID, and the earliest submit time among equal IDs. */
  ghost predicate IsFirst(queue: multiset<SubmissionHeap.Submission>, sub: SubmissionHeap.Submission) {
    && sub in queue
    && forall x <- queue ::
      || sub.streamIdMs < x.streamIdMs
      || (sub.streamIdMs == x.streamIdMs && sub.streamIdSeq < x.streamIdSeq)
      || (sub.streamIdMs == x.streamIdMs && sub.streamIdSeq == x.streamIdSeq && sub.submitTime <= x.submitTime)
  }

  ghost predicate IsDue(s: State, sub: SubmissionHeap.Submission, at: int) {
    s.running.None? && IsFirst(s.heap, sub) && at - sub.submitTime >= 3000
  }

  ghost predicate IsStarted(s: State, sub: SubmissionHeap.Submission, at: int, u: State) {
    && IsDue(s, sub, at)
    && u == s.(heap := s.heap - multiset{sub}, running := Some(sub), now := at, log := s.log + [Started(sub, at)])
  }

  /** The top of the loop, at a time. */
  ghost predicate IsTop(s: State, at: int, u: State) {
    || (s.running.None? && u.running.Some? && IsStarted(s, u.running.value, at, u))
    || (u == s.(now := at) && forall sub :: !IsDue(s, sub, at))
  }

  ghost predicate IsTopAfter(s: State, untilTop: nat, u: State) {
    IsTop(s, s.now + untilTop, u)
  }

  lemma WaitThenTop(s: State, untilTop: nat, w: State, u: State)
    requires w == s.(now := s.now + untilTop) && IsTopAfter(w, 0, u)
    ensures IsTopAfter(s, untilTop, u)
  {
    forall sub ensures IsDue(s, sub, w.now) <==> IsDue(w, sub, w.now) {
    }
  }

  ghost predicate IsSubmitting(s: State, out: Out) {
    out in s.clients && s.clients[out].Submitting?
  }

  ghost predicate Takes(u: State, a: Step, t: State) {
    Enabled(u, a) && !Panics(u, a) && t == Next(u, a)
  }

  /** The deferred closing: one for each registered output, in any order. */
  ghost predicate IsEnd(u: State, t: State) {
    && t == u.(stopped := true, registered := map[], log := t.log)
    && u.log <= t.log
    && (forall k :: |u.log| <= k < |t.log| ==> t.log[k].Closed? && t.log[k].atExit)
    && forall out :: Closings(t.log, out) == Closings(u.log, out) + if out in u.registered then 1 else 0
  }

  /** The timer for the first submission has fired. */
  ghost predicate IsWoken(u: State, t: State) {
    exists sub ::
      && IsFirst(u.heap, sub)
      && t == u.(now := if u.now < sub.submitTime + MIN_AGE then sub.submitTime + MIN_AGE else u.now)
  }

  /** The select, in a state with its time: a case that is ready is taken, and one that is not leaves everything as it
      is. */
  ghost predicate IsSelect(u: State, choice: Choice, t: State) {
    match choice
    case RegisterOut(out) => if out in u.clients then t == u else Takes(u, Register(out), t)
    case CloseOut(out) => if IsSubmitting(u, out) then Takes(u, RequestClose(out), t) else t == u
    case Submission(sub) =>
      if IsSubmitting(u, sub.out) && sub.submitTime <= u.now then Takes(u, Submit(sub, u.now), t) else t == u
    case Due =>
      if u.running.None? && u.heap != multiset{} then IsWoken(u, t) else t == u
    case Callback => if u.running.Some? then Takes(u, CallbackDone, t) else t == u
    case Done => IsEnd(u, t)
  }

  ghost predicate IsSelectAfter(u: State, untilSelect: nat, choice: Choice, t: State) {
    IsSelect(u.(now := u.now + untilSelect), choice, t)
  }

  /** A round leads to u at the end of the loop's top, and to t. */
  ghost predicate IsRound(s: State, round: Round, u: State, t: State) {
    IsTopAfter(s, round.untilTop, u) && IsSelectAfter(u, round.untilSelect, round.choice, t)
  }

  /** Some of the outputs are closed. */
  ghost predicate IsClosing(u: State, t: State) {
    && t == u.(registered := t.registered, log := t.log)
    && u.log <= t.log
    && (forall k :: |u.log| <= k < |t.log| ==> t.log[k].Closed? && t.log[k].atExit)
    && t.registered.Keys <= u.registered.Keys
    && forall out ::
      Closings(t.log, out) == Closings(u.log, out) + if out in u.registered && out !in t.registered then 1 else 0
  }

  lemma ClosesOne(u: State, s: State, out: Out, t: State)
    requires IsClosing(u, s) && out in s.registered && t == CloseOutput(s, out, true)
    ensures IsClosing(u, t) && |t.registered| < |s.registered|
  {
    LogSnoc(s.log, Closed(out, true));
    assert t.registered.Keys == s.registered.Keys - {out};
    assert |t.registered.Keys| < |s.registered.Keys|;
  }

  /** The states before each of the first n rounds and after the last one of them, and those at the selects. */
  ghost predicate IsTrace(rounds: seq<Round>, n: nat, states: seq<State>, selects: seq<State>) {
    && n <= |rounds| && |states| == n + 1 && |selects| == n
    && forall i :: 0 <= i < n ==>
      IsRound(states[i], rounds[i], selects[i], states[i + 1]) && IsGoingOn(states[i], rounds[i], states[i + 1])
  }

  /** Only the end of the context ends the loop. */
  ghost predicate IsGoingOn(s: State, round: Round, t: State) {
    !s.stopped && (t.stopped <==> round.choice.Done?)
  }

  lemma TraceSnoc(rounds: seq<Round>, n: nat, states: seq<State>, selects: seq<State>, u: State, t: State)
    requires IsTrace(rounds, n, states, selects) && n < |rounds|
    requires IsRound(states[n], rounds[n], u, t) && IsGoingOn(states[n], rounds[n], t)
    ensures IsTrace(rounds, n + 1, states + [t], selects + [u])
  {
  }

  /* ---------- What that means for what is ready ---------- */

  lemma TopKeeps(s: State, at: int, u: State)
    requires IsTop(s, at, u)
    ensures u.registered == s.registered && u.clients == s.clients && u.stopped == s.stopped && u.now == at
    ensures s.log <= u.log && (s.running.Some? ==> u.log == s.log && u.running == s.running)
  {
  }

  /** The select starts no callback. */
  lemma SelectKeepsLog(u: State, choice: Choice, t: State)
    requires IsSelect(u, choice, t)
    ensures u.log <= t.log && forall k :: |u.log| <= k < |t.log| ==> !t.log[k].Started?
  {
  }

  /** A submission that is ready when its round comes is counted and queued, and the log says so. */
  lemma ReadyIsPushed(s: State, round: Round, u: State, t: State)
    requires IsRound(s, round, u, t) && round.choice.Submission?
    requires round.choice.sub.out in s.clients && s.clients[round.choice.sub.out].Submitting?
    requires round.choice.sub.submitTime <= s.now + round.untilTop + round.untilSelect
    ensures
      var sub, at := round.choice.sub, s.now + round.untilTop + round.untilSelect;
      && s.log <= u.log && t.log == u.log + [Pushed(sub, at)]
      && t.heap == u.heap + multiset{sub}
      && sub.out in s.registered
      && t.registered == s.registered[sub.out := s.registered[sub.out].(pending := s.registered[sub.out].pending + 1)]
  {
    TopKeeps(s, s.now + round.untilTop, u);
  }

  /** The message of a callback that has run is sent to its output, the place for the next one is free, and an output
      that was to be closed after its last message is closed. */
  lemma CallbackIsSent(s: State, round: Round, u: State, t: State)
    requires IsRound(s, round, u, t) && round.choice.Callback? && s.running.Some?
    ensures
      var sub := s.running.value;
      && t.running.None? && sub.out in s.registered
      && var left := s.registered[sub.out].(pending := s.registered[sub.out].pending - 1);
      if left.close && left.pending == 0 then
        t.registered == s.registered - {sub.out} && t.log == s.log + [Sent(sub, sub.out), Closed(sub.out, false)]
      else
        t.registered == s.registered[sub.out := left] && t.log == s.log + [Sent(sub, sub.out)]
  {
    TopKeeps(s, s.now + round.untilTop, u);
  }

  /** If the first submission of the queue is old enough and no callback is running, its callback is started at the next
      top of the loop, and it leaves the queue. Otherwise none is started there. */
  lemma DueIsStarted(s: State, at: int, u: State)
    requires IsTop(s, at, u)
    ensures
      (exists sub :: IsDue(s, sub, at)) ==>
        && u.running.Some? && IsDue(s, u.running.value, at)
        && u.log == s.log + [Started(u.running.value, at)] && u.heap == s.heap - multiset{u.running.value}
    ensures (forall sub :: !IsDue(s, sub, at)) ==> u == s.(now := at)
  {
  }

  /** Registering and closing, as they arrive. */
  lemma OutputIsKept(s: State, round: Round, u: State, t: State)
    requires IsRound(s, round, u, t)
    ensures
      round.choice.RegisterOut? && round.choice.out !in s.clients ==>
        && t.clients == s.clients[round.choice.out := Submitting]
        && t.registered == s.registered[round.choice.out := OutputState(0, false)]
    ensures
      round.choice.CloseOut? && round.choice.out in s.clients && s.clients[round.choice.out].Submitting? ==>
        var out := round.choice.out;
        && t.clients == s.clients[out := Finished] && out in s.registered
        && if s.registered[out].pending > 0 then
          t.log == u.log && t.registered == s.registered[out := s.registered[out].(close := true)]
        else
          t.log == u.log + [Closed(out, false)] && t.registered == s.registered - {out}
  {
    TopKeeps(s, s.now + round.untilTop, u);
  }

  /** After the timer, the first submission of the queue is old enough. */
  lemma TimerWakes(u: State, t: State, at: int)
    requires IsSelect(u, Due, t) && t.running.None? && t.heap != multiset{} && t.now <= at
    ensures exists sub :: IsDue(t, sub, at)
  {
    var sub :| IsFirst(u.heap, sub) && sub.submitTime + MIN_AGE <= t.now;
    assert IsDue(t, sub, at);
  }

  lemma SelectGrows(u: State, untilSelect: nat, choice: Choice, t: State)
    requires IsSelectAfter(u, untilSelect, choice, t)
    ensures u.log <= t.log
  {
    SelectKeepsLog(u.(now := u.now + untilSelect), choice, t);
  }

  lemma RoundGrows(s: State, round: Round, u: State, t: State)
    requires IsRound(s, round, u, t)
    ensures s.log <= u.log <= t.log
  {
    TopKeeps(s, s.now + round.untilTop, u);
    SelectGrows(u, round.untilSelect, round.choice, t);
  }

  lemma {:induction false} LogGrows(rounds: seq<Round>, n: nat, states: seq<State>, selects: seq<State>, i: nat)
    requires IsTrace(rounds, n, states, selects) && i <= n
    ensures states[i].log <= states[n].log
    decreases n - i
  {
    if i < n {
      LogGrows(rounds, n, states, selects, i + 1);
      RoundGrows(states[i], rounds[i], selects[i], states[i + 1]);
    }
  }

  /** The log says what became of the case of a round. */
  ghost predicate IsChoiceLogged(s: State, round: Round, log: seq<Event>) {
    match round.choice
    case Submission(sub) =>
      var at := s.now + round.untilTop + round.untilSelect;
      sub.out in s.clients && s.clients[sub.out].Submitting? && sub.submitTime <= at ==> Pushed(sub, at) in log
    case Callback => s.running.Some? ==> Sent(s.running.value, s.running.value.out) in log
    case _ => true
  }

  /** The log says that a callback was started if one was due. */
  ghost predicate IsStartLogged(s: State, at: int, log: seq<Event>) {
    (exists sub :: IsDue(s, sub, at)) ==> exists e <- log :: e.Started? && e.at == at && IsDue(s, e.sub, at)
  }

  lemma RoundIsLogged(s: State, round: Round, u: State, t: State)
    requires IsRound(s, round, u, t)
    ensures IsChoiceLogged(s, round, t.log)
  {
    match round.choice {
      case Submission(sub) =>
        if IsSubmitting(s, sub.out) && sub.submitTime <= s.now + round.untilTop + round.untilSelect {
          ReadyIsPushed(s, round, u, t);
        }
      case Callback =>
        if s.running.Some? {
          CallbackIsSent(s, round, u, t);
        }
      case _ =>
    }
  }

  lemma StartIsLogged(s: State, at: int, u: State)
    requires IsTop(s, at, u)
    ensures IsStartLogged(s, at, u.log)
  {
    if exists sub :: IsDue(s, sub, at) {
      assert u.log[|s.log|] in u.log;
    }
  }

  lemma LoggedLater(s: State, round: Round, log: seq<Event>, more: seq<Event>)
    requires log <= more
    ensures IsChoiceLogged(s, round, log) ==> IsChoiceLogged(s, round, more)
    ensures IsStartLogged(s, s.now + round.untilTop, log) ==> IsStartLogged(s, s.now + round.untilTop, more)
  {
    assert forall e <- log :: e in more;
  }

  lemma RoundIsNotSkipped(s: State, round: Round, u: State, t: State, log: seq<Event>)
    requires IsRound(s, round, u, t) && t.log <= log
    ensures IsChoiceLogged(s, round, log) && IsStartLogged(s, s.now + round.untilTop, log)
  {
    RoundIsLogged(s, round, u, t);
    LoggedLater(s, round, t.log, log);
    StartIsLogged(s, s.now + round.untilTop, u);
    RoundGrows(s, round, u, t);
    LoggedLater(s, round, u.log, log);
  }

  /** In the end the log has a push for every submission that was ready in one of the rounds, a message sent for every
      callback that was, and a start wherever one was due. */
  lemma NothingReadyIsSkipped(rounds: seq<Round>, n: nat, states: seq<State>, selects: seq<State>, i: nat)
    requires IsTrace(rounds, n, states, selects) && i < n
    ensures IsChoiceLogged(states[i], rounds[i], states[n].log)
    ensures IsStartLogged(states[i], states[i].now + rounds[i].untilTop, states[n].log)
  {
    LogGrows(rounds, n, states, selects, i + 1);
    RoundIsNotSkipped(states[i], rounds[i], selects[i], states[i + 1], states[n].log);
  }

  class Worker {
    const heap: Submissions
    var registered: map<Out, OutputState>
    var running: Option<SubmissionHeap.Submission>
    var stopped: bool
    var now: int

    /** The PipelineFunc calls around the worker. */
    var clients: map<Out, Client>

    ghost var log: seq<Event>
    ghost var steps: seq<Step>

    ghost function State(): State
      reads this, heap
    {
      SorterProtocol.State(multiset(heap.subs), registered, running, stopped, clients, now, log)
    }

    /** What has happened so far is a run of the protocol. */
    ghost predicate Valid()
      reads this, heap
    {
      IsHeap(heap.subs) && IsRun(INITIAL, steps) && State() == After(INITIAL, steps)
    }

    constructor ()
      ensures Valid() && fresh(heap) && steps == []
    {
      heap := new Submissions();
      registered, running, stopped, now, clients, log, steps := map[], None, false, 0, map[], [], [];
    }

    method Wait(at: int)
      requires Valid() && now <= at
      modifies this`now, this`steps
      ensures Valid() && State() == old(State()).(now := at) && steps == old(steps) + [Tick(at)]
    {
      CanStep(steps, Tick(at));
      now, steps := at, steps + [Tick(at)];
    }

    /** heap.Pop, and the callback of the submission that it returns. */
    method StartCallback()
      requires Valid() && !stopped && running.None? && heap.subs != []
      requires now - heap.subs[0].submitTime >= MIN_AGE
      modifies this`running, this`log, this`steps, heap
      ensures Valid() && steps == old(steps) + [Start(old(heap.subs)[0], now)]
      ensures Takes(old(State()), Start(old(heap.subs)[0], now), State())
    {
      ghost var a := Start(heap.subs[0], now);
      HeadIsMinimum(heap.subs);
      CanStep(steps, a);
      var sub := heap.HeapPop();
      running, log, steps := Some(sub), log + [Started(sub, now)], steps + [a];
    }

    /** The first submission of the queue, as the protocol sees it. */
    lemma HeadIsFirst()
      requires IsHeap(heap.subs) && heap.subs != []
      ensures forall x <- multiset(heap.subs) :: !Before(x, heap.subs[0])
      ensures IsFirst(multiset(heap.subs), heap.subs[0])
      ensures forall sub :: IsFirst(multiset(heap.subs), sub) ==> sub.submitTime == heap.subs[0].submitTime
    {
      HeadIsMinimum(heap.subs);
      assert heap.subs[0] in multiset(heap.subs);
    }

    /** The top of the loop: starts the first submission of the queue if no callback is running and it is old enough.
        Otherwise there is a timer for it. */
    method StartNext() returns (timer: Option<int>)
      requires Valid() && !stopped
      modifies this`running, this`log, this`steps, heap
      ensures Valid() && old(steps) <= steps
      ensures IsTopAfter(old(State()), 0, State())
      ensures timer.Some? <==> running.None? && heap.subs != []
      ensures timer.Some? ==> timer.value == heap.subs[0].submitTime + MIN_AGE
    {
      timer := None;
      if running.None? {
        var next := heap.Peek();
        if next.Some? {
          HeadIsFirst();
          if now - next.value.submitTime >= MIN_AGE {
            assert IsDue(State(), heap.subs[0], now);
            StartCallback();
          } else {
            timer := Some(next.value.submitTime + MIN_AGE);
          }
        }
      }
    }

    method RegisterOutput(out: Out)
      requires Valid() && !stopped && out !in clients
      modifies this`registered, this`clients, this`steps
      ensures Valid() && steps == old(steps) + [Step.Register(out)]
      ensures Takes(old(State()), Step.Register(out), State())
    {
      ghost var a := Step.Register(out);
      CanStep(steps, a);
      registered := registered[out := OutputState(0, false)];
      clients, steps := clients[out := Submitting], steps + [a];
    }

    method Close(out: Out)
      requires Valid() && !stopped && out in clients && clients[out].Submitting?
      modifies this`registered, this`clients, this`log, this`steps
      ensures Valid() && steps == old(steps) + [RequestClose(out)]
      ensures Takes(old(State()), RequestClose(out), State())
    {
      ghost var a := RequestClose(out);
      CanStep(steps, a);
      if registered[out].pending > 0 {
        registered := registered[out := registered[out].(close := true)];
      } else {
        registered, log := registered - {out}, log + [Closed(out, false)];
      }
      clients, steps := clients[out := Finished], steps + [a];
    }

    method Accept(sub: SubmissionHeap.Submission)
      requires Valid() && !stopped && sub.out in clients && clients[sub.out].Submitting? && sub.submitTime <= now
      modifies this`registered, this`log, this`steps, heap
      ensures Valid() && steps == old(steps) + [Submit(sub, now)]
      ensures Takes(old(State()), Submit(sub, now), State())
    {
      ghost var a := Submit(sub, now);
      CanStep(steps, a);
      var state := registered[sub.out];
      registered := registered[sub.out := state.(pending := state.pending + 1)];
      heap.HeapPush(sub);
      log, steps := log + [Pushed(sub, now)], steps + [a];
    }

    method Forward()
      requires Valid() && !stopped && running.Some?
      modifies this`registered, this`running, this`log, this`steps
      ensures Valid() && steps == old(steps) + [CallbackDone]
      ensures Takes(old(State()), CallbackDone, State())
    {
      CanStep(steps, CallbackDone);
      var out := running.value.out;
      log := log + [Sent(running.value, out)];
      var state := registered[out].(pending := registered[out].pending - 1);
      registered := registered[out := state];
      if state.close && state.pending == 0 {
        registered, log := registered - {out}, log + [Closed(out, false)];
      }
      running, steps := None, steps + [CallbackDone];
    }

    /** A PipelineFunc call that ends before it could register closes its output itself. */
    method AbandonOut(out: Out)
      requires Valid() && out !in clients
      modifies this`clients, this`log, this`steps
      ensures Valid() && steps == old(steps) + [Abandon(out)]
      ensures Takes(old(State()), Abandon(out), State())
    {
      CanStep(steps, Abandon(out));
      clients, log, steps := clients[out := Abandoned], log + [Closed(out, false)], steps + [Abandon(out)];
    }

    method CloseOne(out: Out)
      requires Valid() && stopped && out in registered
      modifies this`registered, this`log, this`steps
      ensures Valid() && steps == old(steps) + [CloseAtExit(out)]
      ensures State() == CloseOutput(old(State()), out, true)
    {
      CanStep(steps, CloseAtExit(out));
      registered, log, steps := registered - {out}, log + [Closed(out, true)], steps + [CloseAtExit(out)];
    }

    /** Every output has been closed once. */
    ghost predicate Ended()
      reads this
    {
      registered == map[] && forall out :: Closings(log, out) == if out in clients then 1 else 0
    }

    /** The deferred closing of all registered outputs, in any order. */
    method CloseAll()
      requires Valid() && stopped
      modifies this`registered, this`log, this`steps
      ensures Valid() && old(steps) <= steps
      ensures IsClosing(old(State()), State()) && registered == map[]
    {
      while registered != map[]
        invariant Valid() && old(steps) <= steps
        invariant IsClosing(old(State()), State())
        decreases |registered|
      {
        var out :| out in registered;
        ghost var s := State();
        CloseOne(out);
        ClosesOne(old(State()), s, out, State());
      }
    }

    /** The select. */
    method Select(untilSelect: nat, choice: Choice, timer: Option<int>)
      requires Valid() && !stopped
      requires timer.Some? <==> running.None? && heap.subs != []
      requires timer.Some? ==> timer.value == heap.subs[0].submitTime + MIN_AGE
      modifies this, heap
      ensures Valid() && old(steps) <= steps
      ensures IsSelectAfter(old(State()), untilSelect, choice, State())
      ensures stopped <==> choice.Done?
      ensures stopped ==> Ended()
    {
      Wait(now + untilSelect);
      match choice
      case RegisterOut(out) =>
        if out !in clients {
          RegisterOutput(out);
        }
      case CloseOut(out) =>
        if out in clients && clients[out].Submitting? {
          Close(out);
        }
      case Submission(sub) =>
        if sub.out in clients && clients[sub.out].Submitting? && sub.submitTime <= now {
          Accept(sub);
        }
      case Due =>
        if timer.Some? {
          HeadIsFirst();
          if now < timer.value {
            Wait(timer.value);
          }
        }
      case Callback =>
        if running.Some? {
          Forward();
        }
      case Done =>
        Exit();
    }

    /** The return on the end of the context. */
    method Exit()
      requires Valid() && !stopped
      modifies this`stopped, this`registered, this`log, this`steps
      ensures Valid() && old(steps) <= steps && stopped
      ensures IsEnd(old(State()), State()) && Ended()
    {
      CanStep(steps, Stop);
      stopped, steps := true, steps + [Stop];
      CloseAll();
      InvOfRun(steps);
    }

    method Top(untilTop: nat) returns (timer: Option<int>)
      requires Valid() && !stopped
      modifies this`running, this`now, this`log, this`steps, heap
      ensures Valid() && old(steps) <= steps
      ensures IsTopAfter(old(State()), untilTop, State())
      ensures timer.Some? <==> running.None? && heap.subs != []
      ensures timer.Some? ==> timer.value == heap.subs[0].submitTime + MIN_AGE
    {
      Wait(now + untilTop);
      ghost var w := State();
      timer := StartNext();
      WaitThenTop(old(State()), untilTop, w, State());
    }

    /** One round of the loop. */
    method Turn(round: Round) returns (ghost u: State)
      requires Valid() && !stopped
      modifies this, heap
      ensures Valid() && old(steps) <= steps
      ensures IsRound(old(State()), round, u, State()) && IsGoingOn(old(State()), round, State())
      ensures stopped ==> Ended()
    {
      var timer := Top(round.untilTop);
      u := State();
      Select(round.untilSelect, round.choice, timer);
    }

    /** The loop, until its context ends. */
    method Work(rounds: seq<Round>) returns (n: nat, ghost states: seq<State>, ghost selects: seq<State>)
      requires Valid() && !stopped
      modifies this, heap
      ensures Valid() && old(steps) <= steps
      ensures IsTrace(rounds, n, states, selects) && states[0] == old(State()) && states[n] == State()
      ensures (n < |rounds| ==> stopped) && (stopped ==> Ended())
    {
      n, states, selects := 0, [State()], [];
      while n < |rounds| && !stopped
        invariant Valid() && old(steps) <= steps && (stopped ==> Ended())
        invariant IsTrace(rounds, n, states, selects) && states[0] == old(State()) && states[n] == State()
      {
        ghost var u := Turn(rounds[n]);
        TraceSnoc(rounds, n, states, selects, u, State());
        n, states, selects := n + 1, states + [State()], selects + [u];
      }
    }
  }
}
