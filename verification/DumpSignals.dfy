/** Dump signals (pkg/icingadb/dump_signals.go): Listen closes the channels that Done has returned. */
module DumpSignals {
  import opened Wrappers

  type Key = string

  /** A stream entry; key and state are None if they are not strings. */
  datatype Entry = Entry(key: Option<Key>, state: Option<string>)

  datatype Error = BadKey | BadState | ContextDone

  /** A channel that is only ever closed. */
  class Chan {
    var closed: bool

    constructor ()
      ensures !closed
    {
      closed := false;
    }

    /** close panics on a closed channel. */
    method Close()
      requires !closed
      modifies this
      ensures closed
    {
      closed := true;
    }
  }

  /** What has happened: a call of Done, or an entry that Listen has processed. */
  datatype Event = Called(key: Key) | Processed(key: Key, done: bool)

  predicate IsDone(e: Event) {
    e.Processed? && e.done
  }

  ghost predicate AllDone(log: seq<Event>) {
    Processed("*", true) in log
  }

  ghost predicate DoneAfterCall(log: seq<Event>, key: Key) {
    exists i, j :: 0 <= i < j < |log| && log[i] == Called(key) && log[j] == Processed(key, true)
  }

  /** When a channel returned for key must be closed: an all-done has been processed, or a done for the key after its
      channel was created by the first call. */
  ghost predicate MustBeClosed(log: seq<Event>, key: Key) {
    AllDone(log) || DoneAfterCall(log, key)
  }

  ghost predicate AnyDone(log: seq<Event>) {
    exists i :: 0 <= i < |log| && IsDone(log[i])
  }

  /** A new dump is in progress: an entry that is not done follows one that is. */
  ghost predicate NewDump(log: seq<Event>) {
    exists i, j :: 0 <= i < j < |log| && IsDone(log[i]) && log[j].Processed? && !log[j].done
  }

  lemma CallChangesNothing(log: seq<Event>, key: Key)
    ensures forall k :: MustBeClosed(log + [Called(key)], k) <==> MustBeClosed(log, k)
    ensures AllDone(log + [Called(key)]) <==> AllDone(log)
    ensures AnyDone(log + [Called(key)]) <==> AnyDone(log)
    ensures NewDump(log + [Called(key)]) <==> NewDump(log)
  {
    var longer := log + [Called(key)];
    assert forall i :: 0 <= i < |log| ==> longer[i] == log[i];
    forall k ensures DoneAfterCall(longer, k) <==> DoneAfterCall(log, k) {
      if i, j :| 0 <= i < j < |log| && log[i] == Called(k) && log[j] == Processed(k, true) {
        assert longer[i] == Called(k) && longer[j] == Processed(k, true);
      }
    }
    if i :| 0 <= i < |log| && IsDone(log[i]) {
      assert IsDone(longer[i]);
    }
    if i, j :| 0 <= i < j < |log| && IsDone(log[i]) && log[j].Processed? && !log[j].done {
      assert IsDone(longer[i]) && longer[j].Processed? && !longer[j].done;
    }
  }

  lemma NotCalledNotClosed(log: seq<Event>, key: Key)
    requires Called(key) !in log && !AllDone(log)
    ensures !MustBeClosed(log, key)
  {
  }

  lemma ProcessedSnoc(log: seq<Event>, key: Key, done: bool)
    ensures
      var longer := log + [Processed(key, done)];
      && (AllDone(longer) <==> AllDone(log) || (done && key == "*"))
      && (AnyDone(longer) <==> AnyDone(log) || done)
      && (NewDump(longer) <==> NewDump(log) || (AnyDone(log) && !done))
      && forall k :: DoneAfterCall(longer, k) <==> DoneAfterCall(log, k) || (done && k == key && Called(key) in log)
  {
    var longer := log + [Processed(key, done)];
    var n := |log|;
    assert longer[n] == Processed(key, done);
    assert forall i :: 0 <= i < n ==> longer[i] == log[i];
    forall k ensures DoneAfterCall(longer, k) <==> DoneAfterCall(log, k) || (done && k == key && Called(key) in log) {
      if i, j :| 0 <= i < j < n && log[i] == Called(k) && log[j] == Processed(k, true) {
        assert longer[i] == Called(k) && longer[j] == Processed(k, true);
      }
      if done && k == key && Called(key) in log {
        var i :| 0 <= i < n && log[i] == Called(key);
        assert longer[i] == Called(k) && longer[n] == Processed(k, true);
      }
    }
    if i :| 0 <= i < n && IsDone(log[i]) {
      assert IsDone(longer[i]) && longer[n].Processed?;
    }
    if i, j :| 0 <= i < j < n && IsDone(log[i]) && log[j].Processed? && !log[j].done {
      assert IsDone(longer[i]) && longer[j].Processed? && !longer[j].done;
    }
  }

  /** What happens around Listen. */
  datatype Action = Receive(entry: Entry) | CallDone(key: Key) | Cancel

  /** The state of an entry that can be processed. */
  predicate IsDoneEntry(e: Entry)
    requires e.state.Some?
  {
    e.state.value == "done"
  }

  /** What Listen, or a call of Done, makes of one action. */
  function EventsOf(a: Action): seq<Event> {
    match a
    case Cancel => []
    case CallDone(key) => [Called(key)]
    case Receive(e) => if e.key.None? || e.state.None? then [] else [Processed(e.key.value, IsDoneEntry(e))]
  }

  /** How Listen ends with an action, if it does. anyDone: an entry that is done came before. */
  function EndOf(a: Action, anyDone: bool): Option<Result<(), Error>> {
    match a
    case Cancel => Some(Failure(ContextDone))
    case CallDone(_) => None
    case Receive(e) =>
      if e.key.None? then Some(Failure(BadKey))
      else if e.state.None? then Some(Failure(BadState))
      else if !IsDoneEntry(e) && anyDone then Some(Success(()))
      else None
  }

  predicate DoneAfter(a: Action, anyDone: bool) {
    anyDone || (a.Receive? && a.entry.key.Some? && a.entry.state.Some? && IsDoneEntry(a.entry))
  }

  /** The events of all actions up to the one that ends Listen. */
  function AllEvents(actions: seq<Action>, anyDone: bool): seq<Event> {
    if actions == [] then []
    else if EndOf(actions[0], anyDone).Some? then EventsOf(actions[0])
    else EventsOf(actions[0]) + AllEvents(actions[1..], DoneAfter(actions[0], anyDone))
  }

  /** How Listen ends with some actions, if it does. */
  function End(actions: seq<Action>, anyDone: bool): Option<Result<(), Error>> {
    if actions == [] then None
    else if EndOf(actions[0], anyDone).Some? then EndOf(actions[0], anyDone)
    else End(actions[1..], DoneAfter(actions[0], anyDone))
  }

  /** What an action means: an entry is done exactly if its state is "done". */
  ghost predicate IsEventOf(e: Event, a: Action) {
    match e
    case Called(key) => a == CallDone(key)
    case Processed(key, done) =>
      a.Receive? && a.entry.key == Some(key) && a.entry.state.Some? && (done <==> a.entry.state == Some("done"))
  }

  lemma FirstAction(actions: seq<Action>, anyDone: bool)
    requires actions != []
    ensures
      var a, log := actions[0], AllEvents(actions, anyDone);
      var rest := AllEvents(actions[1..], DoneAfter(a, anyDone));
      if EndOf(a, anyDone).Some? then log == EventsOf(a) && End(actions, anyDone) == EndOf(a, anyDone)
      else
        && |log| == |rest| + 1 && IsEventOf(log[0], a) && log[1..] == rest
        && End(actions, anyDone) == End(actions[1..], DoneAfter(a, anyDone))
        && (DoneAfter(a, anyDone) <==> anyDone || IsDone(log[0]))
  {
  }

  /** Listen and the calls of Done make one event of each action, in order, until Listen ends. */
  lemma {:induction false} EventsAreActions(actions: seq<Action>, anyDone: bool)
    ensures
      var log := AllEvents(actions, anyDone);
      && |log| <= |actions| && (End(actions, anyDone).None? ==> |log| == |actions|)
      && forall k :: 0 <= k < |log| ==> IsEventOf(log[k], actions[k])
  {
    if actions != [] {
      FirstAction(actions, anyDone);
      EventsAreActions(actions[1..], DoneAfter(actions[0], anyDone));
      var log := AllEvents(actions, anyDone);
      forall k | 0 <= k < |log| ensures IsEventOf(log[k], actions[k]) {
        if k > 0 {
          assert IsEventOf(log[1..][k - 1], actions[1..][k - 1]);
        }
      }
    }
  }

  /** With an error it ends at the end of the context, or at an entry without a key or a state, which are no events. */
  lemma {:induction false} ErrorsAreActions(actions: seq<Action>, anyDone: bool)
    requires End(actions, anyDone).Some? && End(actions, anyDone).value.Failure?
    ensures
      var n := |AllEvents(actions, anyDone)|;
      && n < |actions|
      && match End(actions, anyDone).value.error
         case ContextDone => actions[n] == Cancel
         case BadKey => actions[n].Receive? && actions[n].entry.key.None?
         case BadState => actions[n].Receive? && actions[n].entry.key.Some? && actions[n].entry.state.None?
  {
    FirstAction(actions, anyDone);
    if EndOf(actions[0], anyDone).None? {
      ErrorsAreActions(actions[1..], DoneAfter(actions[0], anyDone));
    }
  }

  /** The first entry that is not done after one that is ends it without an error. */
  lemma {:induction false} NewDumpIsLast(actions: seq<Action>, anyDone: bool, i: nat, k: nat)
    requires i < k < |AllEvents(actions, anyDone)|
    requires
      var log := AllEvents(actions, anyDone);
      (anyDone || IsDone(log[i])) && log[k].Processed? && !log[k].done
    ensures k == |AllEvents(actions, anyDone)| - 1 && End(actions, anyDone) == Some(Success(()))
    decreases |actions|
  {
    FirstAction(actions, anyDone);
    var a, log := actions[0], AllEvents(actions, anyDone);
    var rest, after := actions[1..], DoneAfter(a, anyDone);
    assert log[1..][k - 1] == log[k];
    if k > 1 {
      if i > 0 {
        assert log[1..][i - 1] == log[i];
        NewDumpIsLast(rest, after, i - 1, k - 1);
      } else {
        NewDumpIsLast(rest, after, 0, k - 1);
      }
    } else {
      FirstAction(rest, after);
    }
  }

  /** An entry says that the dump of a key, or with "*" that the whole dump, is done. */
  ghost predicate IsDoneFor(a: Action, key: Key) {
    a.Receive? && a.entry.key == Some(key) && a.entry.state == Some("done")
  }

  /** Among the first n actions is an all-done, or a done for the key after a call of Done for it. */
  ghost predicate IsDoneBy(actions: seq<Action>, n: nat, key: Key)
    requires n <= |actions|
  {
    exists k :: 0 <= k < n &&
      (|| IsDoneFor(actions[k], "*")
       || (IsDoneFor(actions[k], key) && exists i :: 0 <= i < k && actions[i] == CallDone(key)))
  }

  lemma MustBeClosedIffDone(actions: seq<Action>, log: seq<Event>, key: Key)
    requires |log| <= |actions| && forall k :: 0 <= k < |log| ==> IsEventOf(log[k], actions[k])
    ensures MustBeClosed(log, key) <==> IsDoneBy(actions, |log|, key)
  {
    if AllDone(log) {
      var k :| 0 <= k < |log| && log[k] == Processed("*", true);
      assert IsEventOf(log[k], actions[k]) && IsDoneFor(actions[k], "*");
    }
    if i, k :| 0 <= i < k < |log| && log[i] == Called(key) && log[k] == Processed(key, true) {
      assert IsEventOf(log[i], actions[i]) && IsEventOf(log[k], actions[k]);
      assert IsDoneFor(actions[k], key) && actions[i] == CallDone(key);
    }
    if k :| 0 <= k < |log| && IsDoneFor(actions[k], "*") {
      assert IsEventOf(log[k], actions[k]) && log[k] == Processed("*", true);
    }
    if k, i :| 0 <= i < k < |log| && IsDoneFor(actions[k], key) && actions[i] == CallDone(key) {
      assert IsEventOf(log[i], actions[i]) && IsEventOf(log[k], actions[k]);
      assert log[i] == Called(key) && log[k] == Processed(key, true);
    }
  }

  lemma NextHandled(actions: seq<Action>, i: nat, anyDone: bool)
    requires i < |actions|
    ensures
      var rest, a := actions[i..], actions[i];
      if EndOf(a, anyDone).Some? then AllEvents(rest, anyDone) == EventsOf(a) && End(rest, anyDone) == EndOf(a, anyDone)
      else
        && AllEvents(rest, anyDone) == EventsOf(a) + AllEvents(actions[i + 1..], DoneAfter(a, anyDone))
        && End(rest, anyDone) == End(actions[i + 1..], DoneAfter(a, anyDone))
  {
    assert actions[i..][1..] == actions[i + 1..];
  }

  lemma Shift(all: seq<Event>, log: seq<Event>, events: seq<Event>, rest: seq<Event>)
    requires all == log + (events + rest)
    ensures all == log + events + rest
  {
  }

  class DumpSignals {
    var doneCh: map<Key, Chan>
    var allDoneCh: Chan?
    const inProgressCh: Chan

    ghost var log: seq<Event>
    /** The channels that Done has returned. */
    ghost var returned: set<(Key, Chan)>
    ghost var Repr: set<Chan>

    /** Every channel that Done has returned is closed exactly if it must be; so is the one of InProgress. */
    ghost predicate Valid()
      reads this, Repr
    {
      && doneCh.Values + {inProgressCh} <= Repr
      && (allDoneCh != null ==> allDoneCh in Repr && allDoneCh !in doneCh.Values && allDoneCh != inProgressCh)
      && inProgressCh !in doneCh.Values
      && (forall k <- doneCh, l <- doneCh :: doneCh[k] == doneCh[l] ==> k == l)
      && (forall k <- doneCh :: Called(k) in log && (doneCh[k].closed <==> MustBeClosed(log, k)))
      && (forall k :: Called(k) in log && allDoneCh == null ==> k in doneCh)
      && (allDoneCh != null <==> AllDone(log)) && (allDoneCh != null ==> allDoneCh.closed)
      && (forall p <- returned :: (p.0 in doneCh && doneCh[p.0] == p.1) || p.1 == allDoneCh)
      && (inProgressCh.closed <==> NewDump(log))
    }

    lemma ReturnedClosed(key: Key, ch: Chan)
      requires Valid() && (key, ch) in returned
      ensures ch in Repr && (ch.closed <==> MustBeClosed(log, key))
    {
      assert (key, ch).0 in doneCh ==> doneCh[key] == ch || ch == allDoneCh;
    }

    constructor ()
      ensures Valid() && log == [] && returned == {} && fresh(Repr)
    {
      doneCh, allDoneCh, log, returned := map[], null, [], {};
      var ch := new Chan();
      inProgressCh, Repr := ch, {ch};
    }

    /** The first request for a key. */
    method Create(key: Key) returns (ch: Chan)
      requires Valid() && allDoneCh == null && key !in doneCh
      modifies this`doneCh, this`log, this`Repr
      ensures Valid() && fresh(Repr - old(Repr)) && log == old(log) + [Called(key)]
      ensures key in doneCh && ch == doneCh[key]
    {
      CallChangesNothing(log, key);
      NotCalledNotClosed(log, key);
      ch := new Chan();
      doneCh, Repr, log := doneCh[key := ch], Repr + {ch}, log + [Called(key)];
    }

    /** The channel for a key. */
    method Channel(key: Key) returns (ch: Chan)
      requires Valid()
      modifies this`doneCh, this`log, this`Repr
      ensures Valid() && fresh(Repr - old(Repr)) && log == old(log) + [Called(key)]
      ensures (key in doneCh && ch == doneCh[key]) || ch == allDoneCh
    {
      if allDoneCh == null && key !in doneCh {
        ch := Create(key);
      } else {
        CallChangesNothing(log, key);
        ch := if allDoneCh != null then allDoneCh else doneCh[key];
        log := log + [Called(key)];
      }
    }

    method Done(key: Key) returns (ch: Chan)
      requires Valid()
      modifies this`doneCh, this`log, this`returned, this`Repr
      ensures Valid() && fresh(Repr - old(Repr)) && log == old(log) + [Called(key)]
      ensures returned == old(returned) + {(key, ch)} && ch in Repr
      ensures ch.closed <==> MustBeClosed(log, key)
    {
      ch := Channel(key);
      returned := returned + {(key, ch)};
    }

    /** safeClose. */
    method SafeClose(ch: Chan)
      modifies ch
      ensures ch.closed
    {
      if !ch.closed {
        ch.Close();
      }
    }

    /** The first all-done: all channels that were ever created are closed. */
    method CloseAll()
      requires doneCh.Values <= Repr && inProgressCh !in doneCh.Values && allDoneCh == null
      modifies this`allDoneCh, this`Repr, doneCh.Values
      ensures Repr == old(Repr) + {allDoneCh} && fresh(allDoneCh) && allDoneCh.closed
      ensures forall k <- doneCh :: doneCh[k].closed
    {
      var all := new Chan();
      all.Close();
      allDoneCh, Repr := all, Repr + {all};
      var keys := doneCh.Keys;
      while keys != {}
        modifies doneCh.Values
        invariant keys <= doneCh.Keys && all.closed
        invariant forall k <- doneCh :: k !in keys ==> doneCh[k].closed
        decreases |keys|
      {
        var k :| k in keys;
        SafeClose(doneCh[k]);
        keys := keys - {k};
      }
    }

    /** Listen processes an entry that is done. */
    method OnDone(key: Key)
      requires Valid()
      modifies this`allDoneCh, this`log, this`Repr, doneCh.Values
      ensures Valid() && fresh(Repr - old(Repr)) && log == old(log) + [Processed(key, true)]
    {
      ProcessedSnoc(log, key, true);
      log := log + [Processed(key, true)];
      if key == "*" {
        if allDoneCh == null {
          CloseAll();
        }
      } else if key in doneCh {
        SafeClose(doneCh[key]);
      }
    }

    /** Listen processes an entry that is not done. After any that was, a new dump is in progress. */
    method OnWip(key: Key, anyDoneSent: bool)
      requires Valid() && anyDoneSent == AnyDone(log) && !NewDump(log)
      modifies this`log, inProgressCh
      ensures Valid() && log == old(log) + [Processed(key, false)]
      ensures anyDoneSent <==> NewDump(log)
    {
      ProcessedSnoc(log, key, false);
      log := log + [Processed(key, false)];
      if anyDoneSent {
        inProgressCh.Close();
      }
    }

    /** Listen processes one entry, or Done is called, or the context ends. */
    method OnAction(a: Action, anyDoneSent: bool) returns (r: Option<Result<(), Error>>)
      requires Valid() && anyDoneSent == AnyDone(log) && !NewDump(log)
      modifies this, Repr
      ensures Valid() && fresh(Repr - old(Repr))
      ensures log == old(log) + EventsOf(a) && r == EndOf(a, anyDoneSent)
      ensures DoneAfter(a, anyDoneSent) == AnyDone(log)
      ensures r == Some(Success(())) <==> NewDump(log)
    {
      r := None;
      match a {
        case CallDone(key) =>
          CallChangesNothing(log, key);
          var _ := Done(key);
        case Cancel =>
          r := Some(Failure(ContextDone));
        case Receive(entry) =>
          if entry.key.None? {
            r := Some(Failure(BadKey));
          } else if entry.state.None? {
            r := Some(Failure(BadState));
          } else if IsDoneEntry(entry) {
            ProcessedSnoc(log, entry.key.value, true);
            OnDone(entry.key.value);
          } else {
            ProcessedSnoc(log, entry.key.value, false);
            OnWip(entry.key.value, anyDoneSent);
            if anyDoneSent {
              r := Some(Success(()));
            }
          }
      }
    }

    /** After Listen, a channel that Done has returned is closed exactly if an entry that Listen has processed says
        so. */
    lemma ClosedIffDone(actions: seq<Action>, key: Key, ch: Chan)
      requires Valid() && log == AllEvents(actions, false) && (key, ch) in returned
      ensures |log| <= |actions| && (ch.closed <==> IsDoneBy(actions, |log|, key))
    {
      EventsAreActions(actions, false);
      ReturnedClosed(key, ch);
      MustBeClosedIffDone(actions, log, key);
    }

    /** Listen, with calls of Done at any time. It returns without an error exactly when a new dump is in progress. None
        means that it is still listening. */
    method Listen(actions: seq<Action>) returns (r: Option<Result<(), Error>>)
      requires Valid() && log == [] && returned == {}
      modifies this, Repr
      ensures Valid() && fresh(Repr - old(Repr))
      ensures log == AllEvents(actions, false) && r == End(actions, false)
      ensures r == Some(Success(())) <==> NewDump(log)
    {
      var anyDoneSent := false;
      ghost var all, end, rest := AllEvents(actions, false), End(actions, false), AllEvents(actions, false);
      assert actions[0..] == actions;
      for i := 0 to |actions|
        invariant Valid() && fresh(Repr - old(Repr))
        invariant anyDoneSent == AnyDone(log) && !NewDump(log)
        invariant rest == AllEvents(actions[i..], anyDoneSent) && all == log + rest
        invariant end == End(actions[i..], anyDoneSent)
      {
        NextHandled(actions, i, anyDoneSent);
        ghost var before := log;
        r := OnAction(actions[i], anyDoneSent);
        if r.Some? {
          return;
        }
        anyDoneSent := DoneAfter(actions[i], anyDoneSent);
        rest := AllEvents(actions[i + 1..], anyDoneSent);
        Shift(all, before, EventsOf(actions[i]), rest);
      }
      r := None;
    }
  }
}
