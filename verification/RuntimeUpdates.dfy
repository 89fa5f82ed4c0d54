/** Runtime updates (pkg/icingadb/runtime_updates.go): xRead passes the messages of the stream to one structifyStream
    per type, which hands them to an upserting and a deleting goroutine and waits for a token in between. */
module RuntimeUpdates {
  import opened Wrappers

  type Key = nat
  type Id = nat
  datatype Entity = Entity(id: Id, columns: nat)

  /** What a message asks for; Invalid if it cannot be converted or has no valid runtime_type. */
  datatype Change = Upsert(entity: Entity) | Delete(id: Id) | Invalid

  /** key is None if redis_key is missing. */
  datatype Message = Message(key: Option<Key>, change: Change)

  type Table = map<Id, Entity>

  function Apply(table: Table, c: Change): Table {
    match c
    case Upsert(e) => table[e.id := e]
    case Delete(id) => table - {id}
    case Invalid => table
  }

  /** The changes applied one after the other. */
  function Fold(table: Table, changes: seq<Change>): Table {
    if changes == [] then table else Apply(Fold(table, changes[..|changes| - 1]), changes[|changes| - 1])
  }

  /* ---------- One type ---------- */

  datatype Structify = Idle | Converting(change: Change) | AwaitToken | Failed

  /** upserts and deletes are what is in the channels or being executed; tokens are being sent on the serializer
      channel, and received counts those that arrived. parallel is the option allowParallel: there is no serializer
      channel. */
  datatype TypeState = TypeState(
    parallel: bool, structify: Structify, upserts: seq<Entity>, deletes: seq<Id>, tokens: nat, received: nat,
    table: Table)

  /** Attempt: the statement takes effect, but is repeated, for the database did not report success. */
  datatype Turn = Convert | AttemptUpsert | FinishUpsert | AttemptDelete | FinishDelete | Token

  predicate Ready(t: TypeState, turn: Turn) {
    match turn
    case Convert => t.structify.Converting?
    case AttemptUpsert => t.upserts != []
    case FinishUpsert => t.upserts != []
    case AttemptDelete => t.deletes != []
    case FinishDelete => t.deletes != []
    case Token => t.tokens > 0 && t.structify.AwaitToken?
  }

  function Step(t: TypeState, turn: Turn): TypeState
    requires Ready(t, turn)
  {
    match turn
    case Convert =>
      var after := if t.parallel then Idle else AwaitToken;
      (match t.structify.change
       case Upsert(e) => t.(structify := after, upserts := t.upserts + [e])
       case Delete(id) => t.(structify := after, deletes := t.deletes + [id])
       case Invalid => t.(structify := Failed))
    case AttemptUpsert => t.(table := t.table[t.upserts[0].id := t.upserts[0]])
    case FinishUpsert =>
      t.(table := t.table[t.upserts[0].id := t.upserts[0]], upserts := t.upserts[1..],
        tokens := if t.parallel then t.tokens else t.tokens + 1)
    case AttemptDelete => t.(table := t.table - {t.deletes[0]})
    case FinishDelete =>
      t.(table := t.table - {t.deletes[0]}, deletes := t.deletes[1..],
        tokens := if t.parallel then t.tokens else t.tokens + 1)
    case Token => t.(structify := Idle, tokens := t.tokens - 1, received := t.received + 1)
  }

  /** The operations that are in flight. */
  function InFlight(t: TypeState): seq<Change> {
    seq(|t.upserts|, i requires 0 <= i < |t.upserts| => Upsert(t.upserts[i]))
    + seq(|t.deletes|, i requires 0 <= i < |t.deletes| => Delete(t.deletes[i]))
  }

  /** changes are all that xRead has passed to the type, start is the table before. */
  ghost predicate InOrder(t: TypeState, start: Table, changes: seq<Change>) {
    && !t.parallel
    && var n := |changes|;
       match t.structify
       case Idle =>
         t.received == n && InFlight(t) == [] && t.tokens == 0 && t.table == Fold(start, changes)
       case Converting(c) =>
         && t.received == n - 1 && changes[n - 1] == c
         && InFlight(t) == [] && t.tokens == 0 && t.table == Fold(start, changes[..n - 1])
       case Failed =>
         && t.received == n - 1 && changes[n - 1] == Invalid
         && InFlight(t) == [] && t.tokens == 0 && t.table == Fold(start, changes[..n - 1])
       case AwaitToken =>
         && t.received == n - 1
         && (if t.tokens == 0 then
               && InFlight(t) == [changes[n - 1]]
               && (t.table == Fold(start, changes[..n - 1]) || t.table == Fold(start, changes))
             else t.tokens == 1 && InFlight(t) == [] && t.table == Fold(start, changes))
  }

  lemma InFlightIs(t: TypeState)
    ensures InFlight(t) == [] <==> t.upserts == [] && t.deletes == []
    ensures forall c ::
      InFlight(t) == [c] <==>
      match c
      case Upsert(e) => t.upserts == [e] && t.deletes == []
      case Delete(id) => t.upserts == [] && t.deletes == [id]
      case Invalid => false
  {
    assert |InFlight(t)| == |t.upserts| + |t.deletes|;
    forall c ensures InFlight(t) == [c] <==>
      match c
      case Upsert(e) => t.upserts == [e] && t.deletes == []
      case Delete(id) => t.upserts == [] && t.deletes == [id]
      case Invalid => false
    {
      if InFlight(t) == [c] {
        assert InFlight(t)[0] == c;
      }
    }
  }

  /** Repeating the statement of one change changes nothing. */
  lemma ApplyTwice(table: Table, c: Change)
    ensures Apply(Apply(table, c), c) == Apply(table, c)
  {
  }

  lemma StepKeepsOrder(t: TypeState, turn: Turn, start: Table, changes: seq<Change>)
    requires InOrder(t, start, changes) && Ready(t, turn)
    ensures InOrder(Step(t, turn), start, changes)
  {
    InFlightIs(t);
    InFlightIs(Step(t, turn));
    if t.structify.AwaitToken? && t.tokens == 0 {
      ApplyTwice(Fold(start, changes[..|changes| - 1]), changes[|changes| - 1]);
    }
  }

  /** xRead hands over the next change. */
  function Receive(t: TypeState, c: Change): TypeState
    requires t.structify.Idle?
  {
    t.(structify := Converting(c))
  }

  lemma ReceiveKeepsOrder(t: TypeState, c: Change, start: Table, changes: seq<Change>)
    requires InOrder(t, start, changes) && t.structify.Idle?
    ensures InOrder(Receive(t, c), start, changes + [c])
  {
    assert (changes + [c])[..|changes|] == changes;
    InFlightIs(t);
    InFlightIs(Receive(t, c));
  }

  /* ---------- All types ---------- */

  datatype System = System(types: map<Key, TypeState>, pos: nat, acked: nat, failed: bool)

  datatype Action = Dispatch | Ack | Goroutine(key: Key, turn: Turn)

  predicate Enabled(stream: seq<Message>, s: System, a: Action) {
    match a
    case Dispatch =>
      && !s.failed && s.pos < |stream| && s.acked == s.pos
      && var key := stream[s.pos].key;
         key.Some? && key.value in s.types ==> s.types[key.value].structify.Idle?
    case Ack => s.acked < s.pos
    case Goroutine(key, turn) => key in s.types && Ready(s.types[key], turn)
  }

  function Next(stream: seq<Message>, s: System, a: Action): System
    requires Enabled(stream, s, a)
  {
    match a
    case Dispatch =>
      var m := stream[s.pos];
      if m.key.None? || m.key.value !in s.types then s.(failed := true)
      else s.(pos := s.pos + 1, types := s.types[m.key.value := Receive(s.types[m.key.value], m.change)])
    case Ack => s.(acked := s.pos)
    case Goroutine(key, turn) => s.(types := s.types[key := Step(s.types[key], turn)])
  }

  /** The changes of one type. */
  function Of(messages: seq<Message>, key: Key): seq<Change> {
    if messages == [] then []
    else
      var m := messages[|messages| - 1];
      Of(messages[..|messages| - 1], key) + if m.key == Some(key) then [m.change] else []
  }

  ghost predicate Inv(start: map<Key, Table>, stream: seq<Message>, s: System) {
    && s.types.Keys == start.Keys
    && s.pos <= |stream| && s.acked <= s.pos <= s.acked + 1
    && forall key <- start :: InOrder(s.types[key], start[key], Of(stream[..s.pos], key))
  }

  lemma OfSnoc(stream: seq<Message>, pos: nat, key: Key)
    requires pos < |stream|
    ensures Of(stream[..pos + 1], key)
      == Of(stream[..pos], key) + if stream[pos].key == Some(key) then [stream[pos].change] else []
  {
    assert stream[..pos + 1][..pos] == stream[..pos];
  }

  lemma DispatchKeepsType(t: TypeState, start: Table, stream: seq<Message>, pos: nat, key: Key)
    requires pos < |stream| && InOrder(t, start, Of(stream[..pos], key))
    requires stream[pos].key == Some(key) ==> t.structify.Idle?
    ensures InOrder(
      if stream[pos].key == Some(key) then Receive(t, stream[pos].change) else t, start, Of(stream[..pos + 1], key))
  {
    OfSnoc(stream, pos, key);
    if stream[pos].key == Some(key) {
      ReceiveKeepsOrder(t, stream[pos].change, start, Of(stream[..pos], key));
    } else {
      assert Of(stream[..pos + 1], key) == Of(stream[..pos], key);
    }
  }

  lemma DispatchKeepsInv(start: map<Key, Table>, stream: seq<Message>, s: System)
    requires Inv(start, stream, s) && Enabled(stream, s, Dispatch)
    ensures Inv(start, stream, Next(stream, s, Dispatch))
  {
    var m := stream[s.pos];
    if m.key.Some? && m.key.value in s.types {
      forall key | key in start
        ensures InOrder(Next(stream, s, Dispatch).types[key], start[key], Of(stream[..s.pos + 1], key))
      {
        DispatchKeepsType(s.types[key], start[key], stream, s.pos, key);
      }
    }
  }

  lemma GoroutineKeepsInv(start: map<Key, Table>, stream: seq<Message>, s: System, key: Key, turn: Turn)
    requires Inv(start, stream, s) && Enabled(stream, s, Goroutine(key, turn))
    ensures Inv(start, stream, Next(stream, s, Goroutine(key, turn)))
  {
    StepKeepsOrder(s.types[key], turn, start[key], Of(stream[..s.pos], key));
  }

  lemma NextKeepsInv(start: map<Key, Table>, stream: seq<Message>, s: System, a: Action)
    requires Inv(start, stream, s) && Enabled(stream, s, a)
    ensures Inv(start, stream, Next(stream, s, a))
  {
    match a
    case Dispatch => DispatchKeepsInv(start, stream, s);
    case Ack =>
    case Goroutine(key, turn) => GoroutineKeepsInv(start, stream, s, key, turn);
  }

  ghost predicate IsRun(stream: seq<Message>, s: System, actions: seq<Action>)
    decreases |actions|
  {
    actions == [] || (Enabled(stream, s, actions[0]) && IsRun(stream, Next(stream, s, actions[0]), actions[1..]))
  }

  ghost function After(stream: seq<Message>, s: System, actions: seq<Action>): System
    requires IsRun(stream, s, actions)
    decreases |actions|
  {
    if actions == [] then s else After(stream, Next(stream, s, actions[0]), actions[1..])
  }

  lemma {:induction false} RunKeepsInv(start: map<Key, Table>, stream: seq<Message>, s: System, actions: seq<Action>)
    requires Inv(start, stream, s) && IsRun(stream, s, actions)
    ensures Inv(start, stream, After(stream, s, actions))
    decreases |actions|
  {
    if actions != [] {
      NextKeepsInv(start, stream, s, actions[0]);
      RunKeepsInv(start, stream, Next(stream, s, actions[0]), actions[1..]);
    }
  }

  function Initial(start: map<Key, Table>): System {
    System(map key <- start :: TypeState(false, Idle, [], [], 0, 0, start[key]), 0, 0, false)
  }

  /** Without allowParallel, at any point of any schedule: at most one operation of a type is in flight; the table is
      what the first messages of the type make of it one after the other, as many as there were tokens, or one more
      while that one is in flight; and when structify is idle, it is what all messages that xRead has passed on make
      of it. */
  lemma SequentiallyConsistent(start: map<Key, Table>, stream: seq<Message>, actions: seq<Action>, key: Key)
    requires IsRun(stream, Initial(start), actions) && key in start
    ensures
      var s := After(stream, Initial(start), actions);
      && key in s.types && s.pos <= |stream|
      && var t, mine := s.types[key], Of(stream[..s.pos], key);
         && |t.upserts| + |t.deletes| <= 1
         && t.received <= |mine| <= t.received + 1
         && (t.table == Fold(start[key], mine[..t.received])
             || (t.structify.AwaitToken? && t.table == Fold(start[key], mine)))
         && (t.structify.Idle? ==> t.table == Fold(start[key], mine))
  {
    assert Inv(start, stream, Initial(start)) by {
      forall k <- start {
        InFlightIs(Initial(start).types[k]);
      }
    }
    RunKeepsInv(start, stream, Initial(start), actions);
    var s := After(stream, Initial(start), actions);
    var mine := Of(stream[..s.pos], key);
    InFlightIs(s.types[key]);
    assert mine[..|mine|] == mine;
    assert |InFlight(s.types[key])| == |s.types[key].upserts| + |s.types[key].deletes|;
  }

  function Row(table: Table, id: Id): Option<Entity> {
    if id in table then Some(table[id]) else None
  }

  /** A message of a type writes or deletes the row of an ID. */
  predicate Concerns(m: Message, key: Key, id: Id) {
    && m.key == Some(key)
    && match m.change
       case Upsert(e) => e.id == id
       case Delete(other) => other == id
       case Invalid => false
  }

  lemma NextRow(table: Table, stream: seq<Message>, pos: nat, key: Key, id: Id)
    requires pos < |stream|
    ensures
      var row := Row(Fold(table, Of(stream[..pos + 1], key)), id);
      if Concerns(stream[pos], key, id) then
        match stream[pos].change
        case Upsert(e) => row == Some(e)
        case _ => row == None
      else row == Row(Fold(table, Of(stream[..pos], key)), id)
  {
    OfSnoc(stream, pos, key);
    var before, c := Of(stream[..pos], key), stream[pos].change;
    if stream[pos].key == Some(key) {
      assert (before + [c])[..|before|] == before;
      assert Fold(table, before + [c]) == Apply(Fold(table, before), c);
    } else {
      assert before + [] == before;
    }
  }

  /** One after the other, the changes of the first messages leave the row of an ID as the last of them that concerns it
      has it: the entity of an upsert, or none after a deletion. */
  lemma {:induction false} LastChangeWins(
    table: Table, stream: seq<Message>, pos: nat, key: Key, id: Id, last: Option<nat>)
    requires pos <= |stream| && (last.Some? ==> last.value < pos && Concerns(stream[last.value], key, id))
    requires forall i :: (if last.Some? then last.value + 1 else 0) <= i < pos ==> !Concerns(stream[i], key, id)
    ensures
      var row := Row(Fold(table, Of(stream[..pos], key)), id);
      match last
      case None => row == Row(table, id)
      case Some(k) =>
        match stream[k].change
        case Upsert(e) => row == Some(e)
        case _ => row == None
  {
    if pos > 0 {
      NextRow(table, stream, pos - 1, key, id);
      if last != Some(pos - 1) {
        assert !Concerns(stream[pos - 1], key, id);
        LastChangeWins(table, stream, pos - 1, key, id, last);
      }
    }
  }

  /** So whenever the synchronisation of a type is idle, the row of each ID is that of the last of its messages. */
  lemma IdleTableIsCurrent(
    start: map<Key, Table>, stream: seq<Message>, actions: seq<Action>, key: Key, id: Id, last: Option<nat>)
    requires IsRun(stream, Initial(start), actions) && key in start
    requires
      var types := After(stream, Initial(start), actions).types;
      key in types && types[key].structify.Idle?
    requires last.Some? ==> last.value < |stream| && Concerns(stream[last.value], key, id)
    requires
      var pos := After(stream, Initial(start), actions).pos;
      && (last.Some? ==> last.value < pos)
      && forall i :: (if last.Some? then last.value + 1 else 0) <= i < pos && i < |stream| ==>
           !Concerns(stream[i], key, id)
    ensures
      var row := Row(After(stream, Initial(start), actions).types[key].table, id);
      match last
      case None => row == Row(start[key], id)
      case Some(k) =>
        match stream[k].change
        case Upsert(e) => row == Some(e)
        case _ => row == None
  {
    SequentiallyConsistent(start, stream, actions, key);
    LastChangeWins(start[key], stream, After(stream, Initial(start), actions).pos, key, id, last);
  }

  /** With allowParallel the order can be lost: a row may survive its deletion. */
  lemma ParallelReorders(e: Entity)
    ensures
      var t0 := TypeState(true, Idle, [], [], 0, 0, map[]);
      var t1 := Step(Receive(t0, Upsert(e)), Convert);
      var t2 := Step(Receive(t1, Delete(e.id)), Convert);
      var t3 := Step(Step(t2, FinishDelete), FinishUpsert);
      t3.table == map[e.id := e] && InFlight(t3) == [] && Fold(map[], [Upsert(e), Delete(e.id)]) == map[]
  {
    var both := [Upsert(e), Delete(e.id)];
    assert both[..1] == [Upsert(e)];
    assert [Upsert(e)][..0] == [];
    assert Fold(map[], [Upsert(e)]) == map[e.id := e];
  }

  /* ---------- The goroutines of one type ---------- */

  class TypeSync {
    var structify: Structify
    var upserts: seq<Entity>
    var deletes: seq<Id>
    var tokens: nat
    var received: nat
    var table: Table

    /** The table before, and what xRead has passed on so far. */
    ghost const start: Table
    ghost var changes: seq<Change>

    ghost function State(): TypeState
      reads this
    {
      TypeState(false, structify, upserts, deletes, tokens, received, table)
    }

    ghost predicate Valid()
      reads this
    {
      InOrder(State(), start, changes)
    }

    constructor (table: Table)
      ensures Valid() && start == table && changes == [] && structify == Idle
    {
      structify, upserts, deletes, tokens, received := Idle, [], [], 0, 0;
      this.table, start, changes := table, table, [];
    }

    /** structifyStream receives a message. */
    method OnMessage(c: Change)
      requires Valid() && structify.Idle?
      modifies this`structify, this`changes
      ensures Valid() && changes == old(changes) + [c] && structify == Converting(c)
    {
      ReceiveKeepsOrder(State(), c, start, changes);
      structify, changes := Converting(c), changes + [c];
    }

    /** It passes the operation on. */
    method OnConverted()
      requires Valid() && structify.Converting?
      modifies this`structify, this`upserts, this`deletes
      ensures Valid() && State() == Step(old(State()), Convert)
    {
      StepKeepsOrder(State(), Convert, start, changes);
      match structify.change {
        case Upsert(e) => structify, upserts := AwaitToken, upserts + [e];
        case Delete(id) => structify, deletes := AwaitToken, deletes + [id];
        case Invalid => structify := Failed;
      }
    }

    /** The upserting goroutine executes its statement, which may take several attempts, and then sends a token. */
    method ExecUpsert(retries: nat)
      requires Valid() && upserts != []
      modifies this`table, this`upserts, this`tokens
      ensures Valid() && State() == Step(old(State()), FinishUpsert)
    {
      StepKeepsOrder(State(), FinishUpsert, start, changes);
      var e := upserts[0];
      for attempt := 0 to retries
        modifies this`table
        invariant table == old(table) || table == old(table)[e.id := e]
      {
        table := table[e.id := e];
      }
      table, upserts, tokens := table[e.id := e], upserts[1..], tokens + 1;
    }

    method ExecDelete(retries: nat)
      requires Valid() && deletes != []
      modifies this`table, this`deletes, this`tokens
      ensures Valid() && State() == Step(old(State()), FinishDelete)
    {
      StepKeepsOrder(State(), FinishDelete, start, changes);
      var id := deletes[0];
      for attempt := 0 to retries
        modifies this`table
        invariant table == old(table) || table == old(table) - {id}
      {
        table := table - {id};
      }
      table, deletes, tokens := table - {id}, deletes[1..], tokens + 1;
    }

    /** structifyStream receives the token. */
    method OnToken()
      requires Valid() && structify.AwaitToken? && tokens > 0
      modifies this`structify, this`tokens, this`received
      ensures Valid() && structify.Idle? && received == old(received) + 1 && table == Fold(start, changes)
    {
      StepKeepsOrder(State(), Token, start, changes);
      structify, tokens, received := Idle, tokens - 1, received + 1;
    }
  }
}
