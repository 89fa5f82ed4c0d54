/** The goroutines of writeMultiEntityStage with the map that they share: all entities of an event point to one State
    object. Each of their rounds is a step of a stage of HistoryPipeline. */
module HistoryStage {
  import opened Wrappers
  import opened HistoryPipeline

  class State {
    const message: Id
    var pending: int

    constructor (message: Id, pending: int)
      ensures this.message == message && this.pending == pending
    {
      this.message, this.pending := message, pending;
    }
  }

  /** The lookup of a reported entity succeeds, and the counter reaches 0 only with the last entity of the event. */
  predicate LastIsLast(st: Stage, x: Entity) {
    && Known(st, x)
    && forall y <- st.waiting :: y != x && y.entry == x.entry ==> st.pending[x.entry] > 1
  }

  /** In every run of the pipeline. */
  lemma ReportedLast(func: StageFunc, st: Stage, db: set<Entity>, x: Entity)
    requires StageOk(func, st, db) && x in st.inserted
    ensures LastIsLast(st, x)
  {
    ReportIsKnown(func, st, db, x);
    assert CounterOk(func, st, db, x.entry);
    WaitingRemoved(st.waiting, x, x.entry, func(x.entry).value);
    forall y <- st.waiting | y != x && y.entry == x.entry ensures st.pending[x.entry] > 1 {
      SomeWaiting(st.waiting - {x}, y, func(x.entry).value);
    }
  }

  class WriteStage {
    const func: StageFunc
    var state: map<Entity, State>
    var taken: Option<Taken>
    var passing: set<Id>
    var insert: set<Entity>
    var inserted: set<Entity>
    var dead: bool

    /** The stage that this object stands for. */
    ghost var model: Stage

    ghost predicate Valid()
      reads this, state.Values
    {
      && model.dead == dead && model.taken == taken && model.passing == passing
      && model.insert == insert && model.inserted == inserted
      && model.waiting == state.Keys
      && (forall x <- state ::
            && state[x].message == x.entry
            && x.entry in model.pending && state[x].pending == model.pending[x.entry])
      && (forall x <- state, y <- state :: state[x] == state[y] <==> x.entry == y.entry)
    }

    constructor (func: StageFunc)
      ensures Valid() && model == NEW_STAGE && this.func == func && state == map[]
    {
      this.func := func;
      state, taken, passing, insert, inserted, dead, model := map[], None, {}, {}, {}, false, NEW_STAGE;
    }

    /** All entities of an event get the same State. */
    method Share(e: Id, count: nat, st: State)
      requires forall x <- state :: x.entry != e
      modifies this`state
      ensures state.Keys == old(state).Keys + EntitiesOf(e, count)
      ensures forall x <- state :: state[x] == if x.entry == e then st else old(state)[x]
    {
      for k := 0 to count
        invariant state.Keys == old(state).Keys + EntitiesOf(e, k)
        invariant forall x <- state :: state[x] == if x.entry == e then st else old(state)[x]
      {
        state := state[Entity(e, k) := st];
      }
    }

    /** The first goroutine has received an event. */
    method OnEvent(e: Id)
      requires Valid() && taken.None? && e !in model.pending
      modifies this
      ensures Valid() && model == TakeIn(func, old(model), e)
    {
      match func(e) {
        case None =>
          dead := true;
        case Some(count) =>
          if count == 0 {
            passing := passing + {e};
          } else {
            taken := Some(Taken(e, 0));
            var st := new State(e, count);
            Share(e, count, st);
          }
      }
      model := TakeIn(func, model, e);
    }

    /** It sends the next entity to the database. */
    method OnSent()
      requires Valid() && taken.Some?
      modifies this`insert, this`taken, this`model
      ensures Valid() && model == FeedIn(func, old(model))
      ensures insert == old(insert) + {Entity(old(taken).value.entry, old(taken).value.next)}
    {
      model := FeedIn(func, model);
      var Taken(e, next) := taken.value;
      insert := insert + {Entity(e, next)};
      taken := if func(e) == Some(next + 1) then None else Some(Taken(e, next + 1));
    }

    /** The last goroutine has received an entity that the database has written. */
    method OnInserted(x: Entity) returns (forward: Option<Id>)
      requires Valid() && x in inserted && LastIsLast(model, x)
      modifies this, state[x]
      ensures Valid() && (model, forward) == ReportIn(old(model), x)
    {
      var st := state[x];
      state := state - {x};
      inserted := inserted - {x};
      st.pending := st.pending - 1;
      forward := if st.pending == 0 then Some(st.message) else None;
      var (after, _) := ReportIn(model, x);
      model := after;
    }
  }
}
