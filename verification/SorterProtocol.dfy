/** StreamSorter.worker and the PipelineFunc calls that use it, as a state machine with a log.

    The queue is a multiset here; module StreamSorter has the worker with its heap, which takes steps of this machine.
    */
module SorterProtocol {
  import opened Wrappers
  import opened SubmissionHeap

  /** submissionMinAge in milliseconds. */
  const MIN_AGE: int := 3000

  datatype OutputState = OutputState(pending: int, close: bool)

  /** A PipelineFunc call, by its output: it submits until it asks the worker to close the output. One that could not
      register closes the output itself. */
  datatype Client = Submitting | Finished | Abandoned

  datatype Event =
    | Pushed(sub: Submission, at: int)
    | Started(sub: Submission, at: int)
    | Sent(sub: Submission, to: Out)
    | Closed(out: Out, atExit: bool)

  datatype State = State(
    heap: multiset<Submission>, registered: map<Out, OutputState>, running: Option<Submission>, stopped: bool,
    clients: map<Out, Client>, now: int, log: seq<Event>)

  datatype Step =
    | Register(out: Out)
    | Abandon(out: Out)
    | RequestClose(out: Out)
    | Submit(sub: Submission, at: int)
    | Start(sub: Submission, at: int)
    | CallbackDone
    | Stop
    | CloseAtExit(out: Out)
    | Tick(at: int)

  const INITIAL := State(multiset{}, map[], None, false, map[], 0, [])

  /** What the worker and the PipelineFunc calls can do next. */
  ghost predicate Enabled(s: State, a: Step) {
    match a
    case Register(out) => !s.stopped && out !in s.clients
    case Abandon(out) => out !in s.clients
    case RequestClose(out) => !s.stopped && out in s.clients && s.clients[out].Submitting?
    case Submit(sub, at) =>
      !s.stopped && sub.out in s.clients && s.clients[sub.out].Submitting? && sub.submitTime <= at && s.now <= at
    case Start(sub, at) =>
      && !s.stopped && s.running.None? && s.now <= at
      && sub in s.heap && (forall x <- s.heap :: !Before(x, sub))
      && at - sub.submitTime >= MIN_AGE
    case CallbackDone => !s.stopped && s.running.Some?
    case Stop => !s.stopped
    case CloseAtExit(out) => s.stopped && out in s.registered
    case Tick(at) => s.now <= at
  }

  /** The worker's panics. */
  predicate Panics(s: State, a: Step) {
    match a
    case Register(out) => out in s.registered
    case RequestClose(out) => out !in s.registered
    case Submit(sub, _) => sub.out !in s.registered
    case CallbackDone => s.running.Some? && s.running.value.out !in s.registered
    case _ => false
  }

  function CloseOutput(s: State, out: Out, atExit: bool): State {
    s.(registered := s.registered - {out}, log := s.log + [Closed(out, atExit)])
  }

  /** The callback's message is passed on; the output is not closed yet. */
  function Forwarded(s: State): State
    requires s.running.Some? && s.running.value.out in s.registered
  {
    var sub := s.running.value;
    var o := s.registered[sub.out].(pending := s.registered[sub.out].pending - 1);
    s.(registered := s.registered[sub.out := o], running := None, log := s.log + [Sent(sub, sub.out)])
  }

  function Next(s: State, a: Step): State
    requires Enabled(s, a) && !Panics(s, a)
  {
    match a
    case Register(out) =>
      s.(registered := s.registered[out := OutputState(0, false)], clients := s.clients[out := Submitting])
    case Abandon(out) =>
      s.(clients := s.clients[out := Abandoned], log := s.log + [Closed(out, false)])
    case RequestClose(out) =>
      var t := s.(clients := s.clients[out := Finished]);
      if s.registered[out].pending > 0 then
        t.(registered := s.registered[out := s.registered[out].(close := true)])
      else CloseOutput(t, out, false)
    case Submit(sub, at) =>
      var o := s.registered[sub.out];
      s.(heap := s.heap + multiset{sub},
        registered := s.registered[sub.out := o.(pending := o.pending + 1)],
        now := at,
        log := s.log + [Pushed(sub, at)])
    case Start(sub, at) =>
      s.(heap := s.heap - multiset{sub}, running := Some(sub), now := at, log := s.log + [Started(sub, at)])
    case CallbackDone =>
      var out := s.running.value.out;
      var t := Forwarded(s);
      if t.registered[out].close && t.registered[out].pending == 0 then CloseOutput(t, out, false) else t
    case Stop => s.(stopped := true)
    case CloseAtExit(out) => CloseOutput(s, out, true)
    case Tick(at) => s.(now := at)
  }

  /* ---------- What the log says ---------- */

  /** The submissions that the log says were pushed, started and sent. */
  ghost function Pushes(log: seq<Event>): multiset<Submission> {
    if log == [] then multiset{}
    else
      var e := log[|log| - 1];
      Pushes(log[..|log| - 1]) + if e.Pushed? then multiset{e.sub} else multiset{}
  }

  ghost function Starts(log: seq<Event>): multiset<Submission> {
    if log == [] then multiset{}
    else
      var e := log[|log| - 1];
      Starts(log[..|log| - 1]) + if e.Started? then multiset{e.sub} else multiset{}
  }

  ghost function Sends(log: seq<Event>): multiset<Submission> {
    if log == [] then multiset{}
    else
      var e := log[|log| - 1];
      Sends(log[..|log| - 1]) + if e.Sent? then multiset{e.sub} else multiset{}
  }

  function Closings(log: seq<Event>, out: Out): nat {
    if log == [] then 0
    else
      var e := log[|log| - 1];
      Closings(log[..|log| - 1], out) + if e.Closed? && e.out == out then 1 else 0
  }

  lemma LogSnoc(log: seq<Event>, e: Event)
    ensures Pushes(log + [e]) == Pushes(log) + if e.Pushed? then multiset{e.sub} else multiset{}
    ensures Starts(log + [e]) == Starts(log) + if e.Started? then multiset{e.sub} else multiset{}
    ensures Sends(log + [e]) == Sends(log) + if e.Sent? then multiset{e.sub} else multiset{}
    ensures forall out :: Closings(log + [e], out) == Closings(log, out) + if e.Closed? && e.out == out then 1 else 0
  {
    assert (log + [e])[..|log|] == log;
  }

  /** The number of submissions for an output. */
  ghost function CountOut(m: multiset<Submission>, out: Out): nat {
    if m == multiset{} then 0
    else
      var x :| x in m;
      CountOut(m - multiset{x}, out) + if x.out == out then 1 else 0
  }

  lemma {:induction false} CountAdd(m: multiset<Submission>, x: Submission, out: Out)
    ensures CountOut(m + multiset{x}, out) == CountOut(m, out) + if x.out == out then 1 else 0
    decreases |m|
  {
    var all := m + multiset{x};
    var y :| y in all && CountOut(all, out) == CountOut(all - multiset{y}, out) + if y.out == out then 1 else 0;
    if y == x {
      assert all - multiset{y} == m;
    } else {
      var rest := m - multiset{y};
      assert all - multiset{y} == rest + multiset{x};
      assert m == rest + multiset{y};
      CountAdd(rest, x, out);
      CountAdd(rest, y, out);
    }
  }

  lemma CountRemove(m: multiset<Submission>, x: Submission, out: Out)
    requires x in m
    ensures CountOut(m - multiset{x}, out) == CountOut(m, out) - if x.out == out then 1 else 0
  {
    CountAdd(m - multiset{x}, x, out);
    assert m - multiset{x} + multiset{x} == m;
  }

  lemma {:induction false} CountSum(m: multiset<Submission>, n: multiset<Submission>, out: Out)
    ensures CountOut(m + n, out) == CountOut(m, out) + CountOut(n, out)
    decreases |n|
  {
    if n == multiset{} {
      assert m + n == m;
    } else {
      var x :| x in n;
      CountSum(m, n - multiset{x}, out);
      CountRemove(n, x, out);
      CountAdd(m + (n - multiset{x}), x, out);
      assert m + (n - multiset{x}) + multiset{x} == m + n;
    }
  }

  /* ---------- The invariant ---------- */

  function Running(s: State): multiset<Submission> {
    if s.running.Some? then multiset{s.running.value} else multiset{}
  }

  /** The submissions for an output that the worker has not finished. */
  ghost function Unfinished(s: State, out: Out): nat {
    CountOut(s.heap + Running(s), out)
  }

  ghost predicate Accounted(s: State) {
    && (forall out <- s.registered :: s.registered[out].pending == Unfinished(s, out))
    && (forall out :: out !in s.registered && (!s.stopped || out !in s.clients) ==> Unfinished(s, out) == 0)
  }

  ghost predicate Flows(s: State) {
    && Pushes(s.log) == s.heap + Starts(s.log)
    && Starts(s.log) == Sends(s.log) + Running(s)
  }

  predicate ClientsMatch(s: State) {
    && (forall out <- s.registered ::
          && out in s.clients && !s.clients[out].Abandoned?
          && (s.registered[out].close <==> s.clients[out].Finished?)
          && (s.registered[out].close ==> s.registered[out].pending > 0))
    && (!s.stopped ==> forall out <- s.clients :: s.clients[out].Submitting? ==> out in s.registered)
  }

  ghost predicate ClosedOnce(s: State) {
    forall out :: Closings(s.log, out) == if out in s.clients && out !in s.registered then 1 else 0
  }

  function OutOf(e: Event): Out {
    match e
    case Pushed(sub, _) => sub.out
    case Started(sub, _) => sub.out
    case Sent(_, to) => to
    case Closed(out, _) => out
  }

  predicate NotAfter(e: Event, at: int) {
    (e.Pushed? || e.Started?) ==> e.at <= at
  }

  /** e is right after the events of log. */
  ghost predicate Fits(log: seq<Event>, e: Event) {
    && Closings(log, OutOf(e)) == 0
    && match e
       case Pushed(sub, at) => sub.submitTime <= at
       case Started(sub, at) =>
         && at - sub.submitTime >= MIN_AGE
         && Starts(log)[sub] < Pushes(log)[sub]
         && forall b :: Before(b, sub) ==> Starts(log)[b] == Pushes(log)[b]
       case Sent(sub, to) => to == sub.out && Sends(log)[sub] < Starts(log)[sub]
       case Closed(out, atExit) => !atExit ==> CountOut(Sends(log), out) == CountOut(Pushes(log), out)
  }

  ghost predicate LogFits(log: seq<Event>, now: int) {
    log == [] ||
    var n := |log| - 1;
    && NotAfter(log[n], now) && Fits(log[..n], log[n])
    && LogFits(log[..n], if log[n].Pushed? || log[n].Started? then log[n].at else now)
  }

  ghost predicate Inv(s: State) {
    Accounted(s) && Flows(s) && ClientsMatch(s) && ClosedOnce(s) && LogFits(s.log, s.now)
  }

  lemma {:induction false} LaterIsFine(log: seq<Event>, now: int, at: int)
    requires LogFits(log, now) && now <= at
    ensures LogFits(log, at)
  {
    if log != [] && !log[|log| - 1].Pushed? && !log[|log| - 1].Started? {
      LaterIsFine(log[..|log| - 1], now, at);
    }
  }

  lemma {:induction false} FitsAt(log: seq<Event>, now: int, k: nat)
    requires LogFits(log, now) && k < |log|
    ensures Fits(log[..k], log[k]) && NotAfter(log[k], now)
  {
    var n := |log| - 1;
    if k < n {
      assert log[..n][..k] == log[..k];
      FitsAt(log[..n], if log[n].Pushed? || log[n].Started? then log[n].at else now, k);
    }
  }

  lemma {:induction false} TimesAscend(log: seq<Event>, now: int, i: nat, j: nat)
    requires LogFits(log, now) && i <= j < |log|
    requires log[i].Pushed? || log[i].Started?
    requires log[j].Pushed? || log[j].Started?
    ensures log[i].at <= log[j].at
  {
    var n := |log| - 1;
    var before := if log[n].Pushed? || log[n].Started? then log[n].at else now;
    if j < n {
      TimesAscend(log[..n], before, i, j);
    } else if i < n {
      FitsAt(log[..n], before, i);
    }
  }

  lemma LogFitsSnoc(log: seq<Event>, now: int, e: Event, at: int)
    requires LogFits(log, now) && Fits(log, e) && now <= at
    requires e.Pushed? || e.Started? ==> e.at == at
    ensures LogFits(log + [e], at)
  {
    LaterIsFine(log, now, at);
    assert (log + [e])[..|log|] == log;
  }

  lemma PendingIsPositive(s: State, sub: Submission)
    requires Accounted(s) && !s.stopped && (sub in s.heap || s.running == Some(sub))
    ensures sub.out in s.registered && s.registered[sub.out].pending > 0
  {
    CountRemove(s.heap + Running(s), sub, sub.out);
  }

  /** While all PipelineFunc calls keep to their protocol, the worker does not panic. */
  lemma NeverPanics(s: State, a: Step)
    requires Inv(s) && Enabled(s, a)
    ensures !Panics(s, a)
  {
    if a.CallbackDone? {
      PendingIsPositive(s, s.running.value);
    }
  }

  /** Unfinished depends on the queue and the running submission only. */
  lemma AccountedAgain(s: State, t: State)
    requires s.heap + Running(s) == t.heap + Running(t)
    ensures forall out :: Unfinished(s, out) == Unfinished(t, out)
  {
  }

  /** What was pushed for an output but not sent is unfinished. */
  lemma PushedIsSentOrUnfinished(s: State, out: Out)
    requires Flows(s)
    ensures CountOut(Pushes(s.log), out) == CountOut(Sends(s.log), out) + Unfinished(s, out)
  {
    CountSum(Sends(s.log), s.heap + Running(s), out);
    assert Pushes(s.log) == Sends(s.log) + (s.heap + Running(s));
  }

  lemma ClosedFits(s: State, out: Out, atExit: bool)
    requires Flows(s) && Closings(s.log, out) == 0
    requires !atExit ==> Unfinished(s, out) == 0
    ensures Fits(s.log, Closed(out, atExit))
  {
    PushedIsSentOrUnfinished(s, out);
  }

  lemma ClosedFlows(s: State, t: State, out: Out, atExit: bool)
    requires Flows(s) && t.log == s.log + [Closed(out, atExit)] && t.heap == s.heap && t.running == s.running
    ensures Flows(t)
  {
    LogSnoc(s.log, Closed(out, atExit));
  }

  lemma CloseKeepsAccount(s: State, out: Out, atExit: bool)
    requires Accounted(s) && out in s.registered && out in s.clients
    requires !s.stopped ==> s.registered[out].pending == 0
    ensures Accounted(CloseOutput(s, out, atExit))
  {
    AccountedAgain(s, CloseOutput(s, out, atExit));
  }

  lemma CloseIsOnce(s: State, out: Out, atExit: bool)
    requires ClosedOnce(s) && out in s.registered && out in s.clients
    ensures ClosedOnce(CloseOutput(s, out, atExit))
  {
    LogSnoc(s.log, Closed(out, atExit));
  }

  lemma CloseKeepsInv(s: State, out: Out, atExit: bool)
    requires Accounted(s) && Flows(s) && LogFits(s.log, s.now) && ClosedOnce(s)
    requires ClientsMatch(CloseOutput(s, out, atExit))
    requires out in s.registered && out in s.clients
    requires if atExit then s.stopped else s.registered[out].pending == 0
    ensures Inv(CloseOutput(s, out, atExit))
  {
    var t := CloseOutput(s, out, atExit);
    ClosedFits(s, out, atExit);
    LogFitsSnoc(s.log, s.now, Closed(out, atExit), s.now);
    ClosedFlows(s, t, out, atExit);
    CloseKeepsAccount(s, out, atExit);
    CloseIsOnce(s, out, atExit);
  }

  lemma AbandonKeepsCounts(s: State, out: Out)
    requires ClosedOnce(s) && Accounted(s) && ClientsMatch(s) && Enabled(s, Abandon(out))
    ensures Closings(s.log, out) == 0 && Unfinished(s, out) == 0
    ensures ClosedOnce(Next(s, Abandon(out)))
  {
    LogSnoc(s.log, Closed(out, false));
  }

  lemma AbandonKeepsAccount(s: State, out: Out)
    requires Accounted(s) && ClientsMatch(s) && Enabled(s, Abandon(out))
    ensures
      var t := Next(s, Abandon(out));
      Accounted(t) && ClientsMatch(t)
  {
    AccountedAgain(s, Next(s, Abandon(out)));
  }

  lemma AbandonKeepsLog(s: State, out: Out)
    requires Flows(s) && LogFits(s.log, s.now) && Enabled(s, Abandon(out))
    requires Closings(s.log, out) == 0 && Unfinished(s, out) == 0
    ensures
      var t := Next(s, Abandon(out));
      Flows(t) && LogFits(t.log, t.now)
  {
    ClosedFits(s, out, false);
    LogFitsSnoc(s.log, s.now, Closed(out, false), s.now);
    ClosedFlows(s, Next(s, Abandon(out)), out, false);
  }

  lemma AbandonKeepsInv(s: State, out: Out)
    requires Inv(s) && Enabled(s, Abandon(out))
    ensures Inv(Next(s, Abandon(out)))
  {
    AbandonKeepsCounts(s, out);
    AbandonKeepsAccount(s, out);
    AbandonKeepsLog(s, out);
  }

  lemma RegisterKeepsInv(s: State, out: Out)
    requires Inv(s) && Enabled(s, Register(out)) && !Panics(s, Register(out))
    ensures Inv(Next(s, Register(out)))
  {
    AccountedAgain(s, Next(s, Register(out)));
  }

  lemma RequestCloseKeepsInv(s: State, out: Out)
    requires Inv(s) && Enabled(s, RequestClose(out)) && !Panics(s, RequestClose(out))
    ensures Inv(Next(s, RequestClose(out)))
  {
    var t := s.(clients := s.clients[out := Finished]);
    AccountedAgain(s, t);
    if s.registered[out].pending > 0 {
      AccountedAgain(s, Next(s, RequestClose(out)));
    } else {
      CloseKeepsInv(t, out, false);
    }
  }

  lemma PushedFlows(s: State, t: State, sub: Submission, at: int)
    requires Flows(s) && t.log == s.log + [Pushed(sub, at)]
    requires t.heap == s.heap + multiset{sub} && t.running == s.running
    ensures Flows(t)
  {
    LogSnoc(s.log, Pushed(sub, at));
    var before := s.heap + Starts(s.log);
    assert Pushes(t.log) == before + multiset{sub};
  }

  lemma MoreUnfinished(s: State, t: State, sub: Submission)
    requires t.heap + Running(t) == s.heap + Running(s) + multiset{sub}
    ensures forall out :: Unfinished(t, out) == Unfinished(s, out) + if sub.out == out then 1 else 0
  {
    forall out ensures Unfinished(t, out) == Unfinished(s, out) + if sub.out == out then 1 else 0 {
      CountAdd(s.heap + Running(s), sub, out);
    }
  }

  lemma SubmitKeepsAccount(s: State, t: State, sub: Submission, at: int)
    requires Accounted(s) && Enabled(s, Submit(sub, at)) && !Panics(s, Submit(sub, at)) && t == Next(s, Submit(sub, at))
    ensures Accounted(t)
  {
    assert t.heap + Running(t) == s.heap + Running(s) + multiset{sub};
    MoreUnfinished(s, t, sub);
  }

  lemma SubmitKeepsInv(s: State, sub: Submission, at: int)
    requires Inv(s) && Enabled(s, Submit(sub, at)) && !Panics(s, Submit(sub, at))
    ensures Inv(Next(s, Submit(sub, at)))
  {
    var t := Next(s, Submit(sub, at));
    LogFitsSnoc(s.log, s.now, Pushed(sub, at), at);
    PushedFlows(s, t, sub, at);
    LogSnoc(s.log, Pushed(sub, at));
    SubmitKeepsAccount(s, t, sub, at);
  }

  lemma StartedFits(s: State, sub: Submission, at: int)
    requires Inv(s) && Enabled(s, Start(sub, at))
    ensures Fits(s.log, Started(sub, at))
  {
    PendingIsPositive(s, sub);
    assert Starts(s.log)[sub] < Pushes(s.log)[sub];
  }

  lemma StartedFlows(s: State, t: State, sub: Submission, at: int)
    requires Flows(s) && t.log == s.log + [Started(sub, at)]
    requires sub in s.heap && t.heap == s.heap - multiset{sub} && s.running.None? && t.running == Some(sub)
    ensures Flows(t)
    ensures forall out :: Closings(t.log, out) == Closings(s.log, out)
  {
    LogSnoc(s.log, Started(sub, at));
  }

  lemma StartKeepsInv(s: State, sub: Submission, at: int)
    requires Inv(s) && Enabled(s, Start(sub, at))
    ensures Inv(Next(s, Start(sub, at)))
  {
    StartedFits(s, sub, at);
    LogFitsSnoc(s.log, s.now, Started(sub, at), at);
    var t := Next(s, Start(sub, at));
    StartedFlows(s, t, sub, at);
    assert t.heap + Running(t) == s.heap + Running(s);
    AccountedAgain(s, t);
  }

  lemma SentFits(s: State, sub: Submission)
    requires Inv(s) && !s.stopped && s.running == Some(sub)
    ensures Fits(s.log, Sent(sub, sub.out))
  {
    PendingIsPositive(s, sub);
    assert Sends(s.log)[sub] < Starts(s.log)[sub];
  }

  lemma SentFlows(s: State, t: State, sub: Submission)
    requires Flows(s) && t.log == s.log + [Sent(sub, sub.out)]
    requires s.running == Some(sub) && t.heap == s.heap && t.running.None?
    ensures Flows(t)
    ensures forall out :: Closings(t.log, out) == Closings(s.log, out)
  {
    LogSnoc(s.log, Sent(sub, sub.out));
  }

  lemma ForwardedKeepsInv(s: State, sub: Submission)
    requires Inv(s) && !s.stopped && s.running == Some(sub) && sub.out in s.registered
    ensures
      var t := Forwarded(s);
      Accounted(t) && Flows(t) && LogFits(t.log, t.now) && ClosedOnce(t)
  {
    var t := Forwarded(s);
    SentFits(s, sub);
    LogFitsSnoc(s.log, s.now, Sent(sub, sub.out), s.now);
    SentFlows(s, t, sub);
    MoreUnfinished(t, s, sub);
  }

  lemma ForwardedClients(s: State)
    requires ClientsMatch(s) && Enabled(s, CallbackDone) && !Panics(s, CallbackDone)
    requires s.registered[s.running.value.out].pending > 0
    ensures ClientsMatch(Next(s, CallbackDone))
  {
  }

  lemma CallbackDoneKeepsInv(s: State)
    requires Inv(s) && Enabled(s, CallbackDone) && !Panics(s, CallbackDone)
    ensures Inv(Next(s, CallbackDone))
  {
    var sub := s.running.value;
    var t := Forwarded(s);
    PendingIsPositive(s, sub);
    ForwardedClients(s);
    ForwardedKeepsInv(s, sub);
    if t.registered[sub.out].close && t.registered[sub.out].pending == 0 {
      CloseKeepsInv(t, sub.out, false);
    }
  }

  lemma TickKeepsInv(s: State, at: int)
    requires Inv(s) && s.now <= at
    ensures Inv(s.(now := at))
  {
    LaterIsFine(s.log, s.now, at);
    AccountedAgain(s, s.(now := at));
  }

  lemma NextKeepsInv(s: State, a: Step)
    requires Inv(s) && Enabled(s, a) && !Panics(s, a)
    ensures Inv(Next(s, a))
  {
    match a
    case Register(out) => RegisterKeepsInv(s, out);
    case Abandon(out) => AbandonKeepsInv(s, out);
    case RequestClose(out) => RequestCloseKeepsInv(s, out);
    case Submit(sub, at) => SubmitKeepsInv(s, sub, at);
    case Start(sub, at) => StartKeepsInv(s, sub, at);
    case CallbackDone => CallbackDoneKeepsInv(s);
    case Stop => AccountedAgain(s, Next(s, Stop));
    case CloseAtExit(out) => CloseKeepsInv(s, out, true);
    case Tick(at) => TickKeepsInv(s, at);
  }

  /* ---------- Runs ---------- */

  ghost predicate IsRun(s: State, steps: seq<Step>)
    decreases |steps|
  {
    steps == [] || (Enabled(s, steps[0]) && !Panics(s, steps[0]) && IsRun(Next(s, steps[0]), steps[1..]))
  }

  ghost function After(s: State, steps: seq<Step>): State
    requires IsRun(s, steps)
    decreases |steps|
  {
    if steps == [] then s else After(Next(s, steps[0]), steps[1..])
  }

  lemma {:induction false} RunKeepsInv(s: State, steps: seq<Step>)
    requires Inv(s) && IsRun(s, steps)
    ensures Inv(After(s, steps))
    decreases |steps|
  {
    if steps != [] {
      NextKeepsInv(s, steps[0]);
      RunKeepsInv(Next(s, steps[0]), steps[1..]);
    }
  }

  lemma InvOfRun(steps: seq<Step>)
    requires IsRun(INITIAL, steps)
    ensures Inv(After(INITIAL, steps))
  {
    RunKeepsInv(INITIAL, steps);
  }

  /** The position of the log at which something is counted. */
  lemma {:induction false} CountedMeansLogged(log: seq<Event>, sub: Submission)
    requires Starts(log)[sub] > 0
    ensures exists k :: 0 <= k < |log| && log[k].Started? && log[k].sub == sub
  {
    var n := |log| - 1;
    if !(log[n].Started? && log[n].sub == sub) {
      CountedMeansLogged(log[..n], sub);
      var k :| 0 <= k < |log[..n]| && log[..n][k].Started? && log[..n][k].sub == sub;
      assert log[k].Started? && log[k].sub == sub;
    }
  }

  lemma {:induction false} PushesGrow(log: seq<Event>, i: nat, j: nat)
    requires i < j <= |log| && log[i].Pushed?
    ensures Pushes(log[..j])[log[i].sub] > 0
    decreases j
  {
    assert log[..j][..j - 1] == log[..j - 1];
    if i < j - 1 {
      PushesGrow(log, i, j - 1);
    }
  }

  /** Bounded disorder: if b's Redis Stream ID is smaller than a's, and b was pushed before a's submit time plus the
      minimum age, then b's callback has been started before a's, even every time that b was pushed before. */
  lemma BoundedDisorder(steps: seq<Step>, i: nat, j: nat)
    requires IsRun(INITIAL, steps)
    requires
      var log := After(INITIAL, steps).log;
      && i < |log| && j < |log| && log[i].Pushed? && log[j].Started?
      && (|| log[i].sub.streamIdMs < log[j].sub.streamIdMs
          || (log[i].sub.streamIdMs == log[j].sub.streamIdMs && log[i].sub.streamIdSeq < log[j].sub.streamIdSeq))
      && log[i].at < log[j].sub.submitTime + MIN_AGE
    ensures
      var log := After(INITIAL, steps).log;
      && i < j
      && Starts(log[..j])[log[i].sub] == Pushes(log[..j])[log[i].sub]
      && exists k :: 0 <= k < j && log[k].Started? && log[k].sub == log[i].sub
  {
    InvOfRun(steps);
    var log := After(INITIAL, steps).log;
    var a, b := log[j].sub, log[i].sub;
    var now := After(INITIAL, steps).now;
    FitsAt(log, now, j);
    if j < i {
      TimesAscend(log, now, j, i);
    }
    PushesGrow(log, i, j);
    assert Before(b, a);
    CountedMeansLogged(log[..j], b);
    var k :| 0 <= k < |log[..j]| && log[..j][k].Started? && log[..j][k].sub == b;
    assert log[k].Started? && log[k].sub == b;
  }

  lemma {:induction false} RunSnoc(s: State, steps: seq<Step>, a: Step)
    requires IsRun(s, steps) && Enabled(After(s, steps), a) && !Panics(After(s, steps), a)
    ensures IsRun(s, steps + [a]) && After(s, steps + [a]) == Next(After(s, steps), a)
    decreases |steps|
  {
    if steps == [] {
      assert steps + [a] == [a];
    } else {
      assert (steps + [a])[1..] == steps[1..] + [a];
      RunSnoc(Next(s, steps[0]), steps[1..], a);
    }
  }

  /** A step that the environment allows extends the run. */
  lemma CanStep(steps: seq<Step>, a: Step)
    requires IsRun(INITIAL, steps) && Enabled(After(INITIAL, steps), a)
    ensures !Panics(After(INITIAL, steps), a)
    ensures IsRun(INITIAL, steps + [a]) && After(INITIAL, steps + [a]) == Next(After(INITIAL, steps), a)
  {
    InvOfRun(steps);
    NeverPanics(After(INITIAL, steps), a);
    RunSnoc(INITIAL, steps, a);
  }

  ghost predicate Reachable(s: State) {
    exists steps :: IsRun(INITIAL, steps) && After(INITIAL, steps) == s
  }

  lemma Reach(s: State, a: Step) returns (t: State)
    requires Reachable(s) && Enabled(s, a)
    ensures !Panics(s, a) && t == Next(s, a) && Reachable(t)
  {
    var steps :| IsRun(INITIAL, steps) && After(INITIAL, steps) == s;
    CanStep(steps, a);
    t := Next(s, a);
  }

  /** The outputs of two submissions are registered. */
  lemma TwoOutputs(a: Out, b: Out) returns (s: State)
    ensures Reachable(s) && s.heap == multiset{} && s.running.None? && !s.stopped && s.now == 0 && s.log == []
    ensures a in s.clients && b in s.clients && s.clients[a].Submitting? && s.clients[b].Submitting?
  {
    assert IsRun(INITIAL, []) && After(INITIAL, []) == INITIAL;
    s := Reach(INITIAL, Register(a));
    if b != a {
      s := Reach(s, Register(b));
    }
  }

  /** The callback of a submission is started at a time when it is old enough. */
  lemma StartedAt(a: Submission, other: Out, at: int) returns (s: State)
    requires at >= 0 && at >= a.submitTime + MIN_AGE
    ensures Reachable(s) && !s.stopped && s.now == at && other in s.clients && s.clients[other].Submitting?
    ensures s.log == [Pushed(a, if a.submitTime < 0 then 0 else a.submitTime), Started(a, at)]
  {
    s := TwoOutputs(a.out, other);
    s := Reach(s, Submit(a, if a.submitTime < 0 then 0 else a.submitTime));
    assert s.heap == multiset{a};
    s := Reach(s, Start(a, at));
  }

  /** The bound is tight, for all submissions and times: one with a smaller ID that is pushed when the other one has
      reached the minimum age, or later, can come after it. */
  lemma LateIsOvertaken(a: Submission, b: Submission, at: int) returns (s: State)
    requires at >= 0 && at >= a.submitTime + MIN_AGE && at >= b.submitTime
    ensures Reachable(s)
    ensures s.log == [Pushed(a, if a.submitTime < 0 then 0 else a.submitTime), Started(a, at), Pushed(b, at)]
  {
    s := StartedAt(a, b.out, at);
    s := Reach(s, Submit(b, at));
  }

  /** a's callback is started before b is pushed at some time. */
  ghost predicate Overtakes(log: seq<Event>, a: Submission, b: Submission, at: int) {
    exists i, j :: 0 <= j < i < |log| && log[j].Started? && log[j].sub == a && log[i] == Pushed(b, at)
  }

  /** So a submission with a smaller ID can miss its place exactly if it is pushed at or after the time at which the
      other one reaches the minimum age. */
  lemma OvertakenIffLate(a: Submission, b: Submission, at: int)
    requires at >= 0 && at >= b.submitTime
    requires
      b.streamIdMs < a.streamIdMs || (b.streamIdMs == a.streamIdMs && b.streamIdSeq < a.streamIdSeq)
    ensures (exists s :: Reachable(s) && Overtakes(s.log, a, b, at)) <==> at >= a.submitTime + MIN_AGE
  {
    if at >= a.submitTime + MIN_AGE {
      var s := LateIsOvertaken(a, b, at);
      assert s.log[1].Started? && s.log[1].sub == a && s.log[2] == Pushed(b, at);
      assert Overtakes(s.log, a, b, at);
    }
    if s :| Reachable(s) && Overtakes(s.log, a, b, at) {
      var steps :| IsRun(INITIAL, steps) && After(INITIAL, steps) == s;
      var i, j :| 0 <= j < i < |s.log| && s.log[j].Started? && s.log[j].sub == a && s.log[i] == Pushed(b, at);
      if at < a.submitTime + MIN_AGE {
        BoundedDisorder(steps, i, j);
      }
    }
  }

  /** The order is exact for what is in the queue: when a callback starts, no submission that was pushed before it and
      comes before it in the order is still waiting; and no callback starts too early. */
  lemma StartsAreInOrder(steps: seq<Step>, j: nat, b: Submission)
    requires IsRun(INITIAL, steps)
    requires j < |After(INITIAL, steps).log| && After(INITIAL, steps).log[j].Started?
    ensures
      var log := After(INITIAL, steps).log;
      && log[j].at >= log[j].sub.submitTime + MIN_AGE
      && (Before(b, log[j].sub) ==> Starts(log[..j])[b] == Pushes(log[..j])[b])
  {
    InvOfRun(steps);
    var log := After(INITIAL, steps).log;
    FitsAt(log, After(INITIAL, steps).now, j);
  }

  /** Every accepted submission is waiting, running, or has been sent, once, and to its own output; and pending counts
      those of an output that are waiting or running. */
  lemma OutputAccounting(steps: seq<Step>, out: Out)
    requires IsRun(INITIAL, steps)
    ensures
      var s := After(INITIAL, steps);
      && Pushes(s.log) == s.heap + Running(s) + Sends(s.log)
      && (forall e <- s.log :: e.Sent? ==> e.to == e.sub.out)
      && (out in s.registered ==> s.registered[out].pending == CountOut(s.heap, out) + CountOut(Running(s), out))
  {
    InvOfRun(steps);
    var s := After(INITIAL, steps);
    forall e <- s.log ensures e.Sent? ==> e.to == e.sub.out {
      var k :| 0 <= k < |s.log| && s.log[k] == e;
      FitsAt(s.log, s.now, k);
    }
    CountSum(s.heap, Running(s), out);
  }

  lemma {:induction false} ClosingsGrow(log: seq<Event>, i: nat, j: nat, out: Out)
    requires i < j <= |log| && log[i].Closed? && log[i].out == out
    ensures Closings(log[..j], out) > 0
    decreases j
  {
    assert log[..j][..j - 1] == log[..j - 1];
    if i < j - 1 {
      ClosingsGrow(log, i, j - 1, out);
    }
  }

  /** Nothing is sent to an output after it was closed, nor is it closed again; and while the worker has not ended, an
      output is closed only when everything pushed for it has been sent. */
  lemma ClosedIsLast(steps: seq<Step>, i: nat)
    requires IsRun(INITIAL, steps)
    requires i < |After(INITIAL, steps).log| && After(INITIAL, steps).log[i].Closed?
    ensures
      var log := After(INITIAL, steps).log;
      var out := log[i].out;
      && (forall k :: i < k < |log| ==> OutOf(log[k]) != out)
      && (!log[i].atExit ==> CountOut(Sends(log[..i]), out) == CountOut(Pushes(log[..i]), out))
  {
    InvOfRun(steps);
    var log := After(INITIAL, steps).log;
    var out := log[i].out;
    var now := After(INITIAL, steps).now;
    FitsAt(log, now, i);
    forall k | i < k < |log| ensures OutOf(log[k]) != out {
      FitsAt(log, now, k);
      ClosingsGrow(log, i, k, out);
    }
  }

  /** An output is closed exactly once: never while the worker has it, and once when the worker has let go of it, as it
      does with all of them when it ends. */
  lemma ClosedExactlyOnce(steps: seq<Step>, out: Out)
    requires IsRun(INITIAL, steps)
    ensures
      var s := After(INITIAL, steps);
      Closings(s.log, out) == if out in s.clients && out !in s.registered then 1 else 0
  {
    InvOfRun(steps);
  }
}
