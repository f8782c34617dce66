/** The to-do table kept by the top-level `App` component (App.js).

    The component state is the draft typed in the "New To Do" box, a flag that
    says whether loading has finished, and the table of to-do records keyed by
    their identifiers. Each handler is one atomic state transition; the
    identifier generator and the clock are parameters of the add handler. */
module AppComponent {

  /** One to-do record; `createAt` is the creation time in epoch milliseconds. */
  datatype Item = Item(id: string, isCompleted: bool, text: string, createAt: int)

  /** The whole component state, as a value. */
  datatype AppState = AppState(newTodo: string, loadedToDos: bool, toDos: map<string, Item>)

  /** The state the component starts with: empty draft, not loaded, empty table. */
  const Initial: AppState := AppState("", false, map[])

  /** Every key of the table maps to a record whose `id` is that key. */
  ghost predicate KeysMatchIds(m: map<string, Item>) {
    forall k :: k in m ==> m[k].id == k
  }

  /** No record in the table has empty text (empty drafts are never added). */
  ghost predicate TextsNonEmpty(m: map<string, Item>) {
    forall k :: k in m ==> m[k].text != ""
  }

  ghost predicate Inv(s: AppState) {
    KeysMatchIds(s.toDos) && TextsNonEmpty(s.toDos)
  }

  /** The state after the add handler, given the generated id and the current time.
      An empty draft leaves everything as it was; otherwise the draft becomes a new,
      uncompleted record under `id` and the draft is cleared. */
  function AfterAdd(s: AppState, id: string, now: int): (r: AppState)
    ensures s.newTodo == "" ==> r == s
    ensures s.newTodo != "" ==>
      && r.newTodo == ""
      && r.loadedToDos == s.loadedToDos
      && r.toDos.Keys == s.toDos.Keys + {id}
      && r.toDos[id].id == id
      && !r.toDos[id].isCompleted
      && r.toDos[id].text == s.newTodo
      && r.toDos[id].createAt == now
    ensures forall k :: k in s.toDos && k != id ==> k in r.toDos && r.toDos[k] == s.toDos[k]
  {
    if s.newTodo == "" then s
    else s.(newTodo := "", toDos := s.toDos[id := Item(id, false, s.newTodo, now)])
  }

  /** The state after the delete handler: `id` is no longer a key, every other
      record is untouched, and the draft and the loaded flag are kept. */
  function AfterDelete(s: AppState, id: string): (r: AppState)
    ensures r.toDos.Keys == s.toDos.Keys - {id}
    ensures forall k :: k in r.toDos ==> r.toDos[k] == s.toDos[k]
    ensures r.newTodo == s.newTodo && r.loadedToDos == s.loadedToDos
  {
    // The source also spreads the remaining records into the top-level state
    // (`...toDos`); those stray keys are never read and are not modelled.
    s.(toDos := s.toDos - {id})
  }

  /** A fresh id under a non-empty draft grows the table by exactly one record. */
  lemma AddGrowsByOne(s: AppState, id: string, now: int)
    requires s.newTodo != "" && id !in s.toDos
    ensures |AfterAdd(s, id, now).toDos| == |s.toDos| + 1
  {
    var r := AfterAdd(s, id, now);
    assert r.toDos.Keys == s.toDos.Keys + {id};
    assert |r.toDos.Keys| == |s.toDos.Keys| + 1;
  }

  /** Deleting a present id shrinks the table by exactly one record. */
  lemma DeleteShrinksByOne(s: AppState, id: string)
    requires id in s.toDos
    ensures |AfterDelete(s, id).toDos| == |s.toDos| - 1
  {
    var r := AfterDelete(s, id);
    assert r.toDos.Keys == s.toDos.Keys - {id};
    assert |r.toDos.Keys| == |s.toDos.Keys| - 1;
  }

  /** Deleting an absent id changes nothing, so a repeated delete is idempotent. */
  lemma DeleteIdempotent(s: AppState, id: string)
    ensures id !in s.toDos ==> AfterDelete(s, id) == s
    ensures AfterDelete(AfterDelete(s, id), id) == AfterDelete(s, id)
  {
    if id !in s.toDos {
      assert s.toDos - {id} == s.toDos;
    }
    var once := AfterDelete(s, id);
    assert once.toDos - {id} == once.toDos;
  }

  /** The handlers of the component, as events. */
  datatype Event =
    | ChangeDraft(text: string)     // _controlNewTodo, on every keystroke
    | Loaded                        // _loadedToDos, called once mounted
    | Submit(id: string, now: int)  // _addToDo, with the generated id and the clock
    | Remove(id: string)            // _deleteToDo, called by an item's delete button

  function Step(s: AppState, e: Event): AppState {
    match e
    case ChangeDraft(t) => s.(newTodo := t)
    case Loaded => s.(loadedToDos := true)
    case Submit(id, now) => AfterAdd(s, id, now)
    case Remove(id) => AfterDelete(s, id)
  }

  /** The state after handling `evs` in order, starting from `s`. */
  function Run(s: AppState, evs: seq<Event>): AppState
    decreases |evs|
  {
    if evs == [] then s else Run(Step(s, evs[0]), evs[1..])
  }

  /** The identifiers of all submissions in `evs`. */
  function SubmittedIds(evs: seq<Event>): set<string>
    decreases |evs|
  {
    if evs == [] then {}
    else (if evs[0].Submit? then {evs[0].id} else {}) + SubmittedIds(evs[1..])
  }

  /** Marking the component loaded a second time changes nothing. */
  lemma LoadedIdempotent(s: AppState)
    ensures Step(s, Loaded).loadedToDos
    ensures Step(Step(s, Loaded), Loaded) == Step(s, Loaded)
  {
  }

  /** Every handler preserves the table invariant, whether or not an added id is fresh. */
  lemma StepKeepsInv(s: AppState, e: Event)
    requires Inv(s)
    ensures Inv(Step(s, e))
  {
  }

  lemma {:induction false} RunKeepsInv(s: AppState, evs: seq<Event>)
    requires Inv(s)
    ensures Inv(Run(s, evs))
    decreases |evs|
  {
    if evs != [] {
      StepKeepsInv(s, evs[0]);
      RunKeepsInv(Step(s, evs[0]), evs[1..]);
    }
  }

  /** Every state the component can reach satisfies the table invariant. */
  lemma ReachableInv(evs: seq<Event>)
    ensures Inv(Run(Initial, evs))
  {
    RunKeepsInv(Initial, evs);
  }

  /** Records enter the table only through submissions: every key after a run
      was a key before it or the id of one of its submissions. */
  lemma {:induction false} RunKeysFromSubmits(s: AppState, evs: seq<Event>)
    ensures Run(s, evs).toDos.Keys <= s.toDos.Keys + SubmittedIds(evs)
    decreases |evs|
  {
    if evs != [] {
      var next := Step(s, evs[0]);
      RunKeysFromSubmits(next, evs[1..]);
    }
  }

  /** The App component with its state fields and its handlers. */
  class App {
    var newTodo: string
    var loadedToDos: bool
    var toDos: map<string, Item>

    function State(): AppState
      reads this
    {
      AppState(newTodo, loadedToDos, toDos)
    }

    ghost predicate Valid()
      reads this
    {
      Inv(State())
    }

    constructor ()
      ensures Valid() && State() == Initial
    {
      newTodo := "";
      loadedToDos := false;
      toDos := map[];
    }

    /** Keeps the draft in step with the input box. */
    method ControlNewTodo(text: string)
      requires Valid()
      modifies this
      ensures Valid() && State() == Step(old(State()), ChangeDraft(text))
      ensures newTodo == text && loadedToDos == old(loadedToDos) && toDos == old(toDos)
    {
      newTodo := text;
    }

    /** Marks loading finished, which lets the list render. */
    method LoadedToDos()
      requires Valid()
      modifies this
      ensures Valid() && State() == Step(old(State()), Loaded)
      ensures loadedToDos && newTodo == old(newTodo) && toDos == old(toDos)
    {
      loadedToDos := true;
    }

    /** Turns a non-empty draft into a new record under the generated `id`,
        stamped with the current time `now`, and clears the draft. */
    method AddToDo(id: string, now: int)
      requires Valid() && id !in toDos
      modifies this
      ensures Valid() && State() == AfterAdd(old(State()), id, now)
      ensures old(newTodo) == "" ==> newTodo == "" && toDos == old(toDos)
      ensures old(newTodo) != "" ==>
        newTodo == "" && toDos == old(toDos)[id := Item(id, false, old(newTodo), now)]
      ensures |toDos| == if old(newTodo) == "" then old(|toDos|) else old(|toDos|) + 1
      ensures loadedToDos == old(loadedToDos)
    {
      ghost var before := State();
      if newTodo != "" {
        AddGrowsByOne(before, id, now);
        toDos := toDos[id := Item(id, false, newTodo, now)];
        newTodo := "";
      }
      StepKeepsInv(before, Submit(id, now));
    }

    /** Removes the record under `id`, if any; the draft and the flag are kept. */
    method DeleteToDo(id: string)
      requires Valid()
      modifies this
      ensures Valid() && State() == AfterDelete(old(State()), id)
      ensures toDos == old(toDos) - {id}
      ensures newTodo == old(newTodo) && loadedToDos == old(loadedToDos)
    {
      ghost var before := State();
      toDos := toDos - {id};
      StepKeepsInv(before, Remove(id));
    }
  }
}
