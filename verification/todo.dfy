/** The per-item component `Todo` (ToDo.js): a completion toggle, an edit
    cycle with its own draft text, and a delete button.

    The callbacks the component receives as props (`completeToDo`,
    `uncompleteToDo`, `updateToDo`, `deleteToDo`) are modelled as the actions
    the component emits: each handler returns the call it makes. */
module TodoComponent {

  datatype Option<T> = None | Some(value: T)

  /** The data props of one item: its id, its stored text and its completion flag. */
  datatype Props = Props(id: string, text: string, isCompleted: bool)

  /** A callback call the item makes, with its arguments. */
  datatype Action =
    | Complete(id: string)               // completeToDo(id)
    | Uncomplete(id: string)             // uncompleteToDo(id)
    | Update(id: string, text: string)   // updateToDo(id, text)
    | Delete(id: string)                 // deleteToDo(id)

  /** The component's own state: whether the inline editor is open, and its draft. */
  datatype TodoState = TodoState(isEditing: bool, toDoValue: string)

  /** The state right after construction: not editing, draft equal to the stored text. */
  function Mounted(p: Props): TodoState {
    TodoState(false, p.text)
  }

  /** The callback the completion circle fires: it undoes a completed item and
      completes an uncompleted one, always for this item's id. */
  function ToggleAction(p: Props): (a: Action)
    ensures a.id == p.id
    ensures a.Uncomplete? <==> p.isCompleted
    ensures a.Complete? <==> !p.isCompleted
  {
    if p.isCompleted then Uncomplete(p.id) else Complete(p.id)
  }

  /** The user's gestures on the controls of one item. */
  datatype Gesture =
    | PressCircle             // the completion circle, always shown
    | PressCheck              // the check icon, shown while editing
    | Blur                    // the inline editor loses focus, shown while editing
    | ChangeText(text: string) // typing in the inline editor, shown while editing
    | PressEdit               // the edit icon, shown while not editing
    | PressCancel             // the delete icon, shown while not editing

  /** Whether the control a gesture acts on is rendered in state `s`. */
  predicate Offered(s: TodoState, g: Gesture) {
    match g
    case PressCircle => true
    case PressCheck => s.isEditing
    case Blur => s.isEditing
    case ChangeText(_) => s.isEditing
    case PressEdit => !s.isEditing
    case PressCancel => !s.isEditing
  }

  /** The new state and the callback fired (if any) when the user makes gesture
      `g` in state `s`. A gesture on a control that is not rendered does nothing. */
  function Handle(p: Props, s: TodoState, g: Gesture): (r: (TodoState, Option<Action>))
    ensures !Offered(s, g) ==> r == (s, None)
    ensures r.1.Some? ==> r.1.value.id == p.id
    ensures r.1.Some? && r.1.value.Delete? ==> !s.isEditing && g == PressCancel
    ensures r.1.Some? && r.1.value.Update? ==>
      s.isEditing && !r.0.isEditing && r.1.value.text == s.toDoValue
    ensures r.0.toDoValue != s.toDoValue ==> s.isEditing && g.ChangeText? && r.0.toDoValue == g.text
    ensures r.0.isEditing != s.isEditing ==> g == (if s.isEditing then PressCheck else PressEdit) || g == Blur
    // and, conversely, what each rendered control does
    ensures g == PressCircle ==> r == (s, Some(ToggleAction(p)))
    ensures !s.isEditing && g == PressCancel ==> r == (s, Some(Delete(p.id)))
    ensures !s.isEditing && g == PressEdit ==> r == (TodoState(true, s.toDoValue), None)
    ensures s.isEditing && g.ChangeText? ==> r == (TodoState(true, g.text), None)
    ensures s.isEditing && (g == PressCheck || g == Blur) ==>
      r == (TodoState(false, s.toDoValue), Some(Update(p.id, s.toDoValue)))
  {
    if !Offered(s, g) then (s, None)
    else match g
      case PressCircle => (s, Some(ToggleAction(p)))
      case PressCheck => (s.(isEditing := false), Some(Update(p.id, s.toDoValue)))
      case Blur => (s.(isEditing := false), Some(Update(p.id, s.toDoValue)))
      case ChangeText(t) => (s.(toDoValue := t), None)
      case PressEdit => (s.(isEditing := true), None)
      case PressCancel => (s, Some(Delete(p.id)))
  }

  /** The state after the gestures `gs` and the callbacks they fired, in order. */
  function Run(p: Props, s: TodoState, gs: seq<Gesture>): (TodoState, seq<Action>)
    decreases |gs|
  {
    if gs == [] then (s, [])
    else
      var step := Handle(p, s, gs[0]);
      var tail := Run(p, step.0, gs[1..]);
      (tail.0, if step.1.Some? then [step.1.value] + tail.1 else tail.1)
  }

  /** An item only ever reports about itself: every callback it fires carries its id. */
  lemma {:induction false} RunFiresOwnId(p: Props, s: TodoState, gs: seq<Gesture>)
    ensures forall i :: 0 <= i < |Run(p, s, gs).1| ==> Run(p, s, gs).1[i].id == p.id
    decreases |gs|
  {
    if gs != [] {
      RunFiresOwnId(p, Handle(p, s, gs[0]).0, gs[1..]);
    }
  }

  /** While the editor stays open (no check press and no blur), the item fires
      neither a delete nor an update: the edit and delete icons are not rendered
      then, so presses on them do nothing, and only closing the editor sends the
      draft. */
  lemma {:induction false} NoDeleteWhileEditing(p: Props, s: TodoState, gs: seq<Gesture>)
    requires s.isEditing
    requires forall i :: 0 <= i < |gs| ==> gs[i] != PressCheck && gs[i] != Blur
    ensures Run(p, s, gs).0.isEditing
    ensures forall i :: 0 <= i < |Run(p, s, gs).1| ==> !Run(p, s, gs).1[i].Delete? && !Run(p, s, gs).1[i].Update?
    decreases |gs|
  {
    if gs != [] {
      NoDeleteWhileEditing(p, Handle(p, s, gs[0]).0, gs[1..]);
    }
  }

  /** The text left in the editor after the keystrokes `typed`, starting from `v`. */
  function LastTyped(v: string, typed: seq<Gesture>): string
    requires forall i :: 0 <= i < |typed| ==> typed[i].ChangeText?
  {
    if typed == [] then v else typed[|typed| - 1].text
  }

  /** Finishing an edit (check icon or blur) after any keystrokes fires exactly one
      update, with this item's id and the last text typed, and closes the editor. */
  lemma {:induction false} TypingThenFinish(p: Props, s: TodoState, typed: seq<Gesture>, finish: Gesture)
    requires s.isEditing
    requires forall i :: 0 <= i < |typed| ==> typed[i].ChangeText?
    requires finish == PressCheck || finish == Blur
    ensures Run(p, s, typed + [finish]) ==
      (TodoState(false, LastTyped(s.toDoValue, typed)), [Update(p.id, LastTyped(s.toDoValue, typed))])
    decreases |typed|
  {
    var gs := typed + [finish];
    if typed == [] {
      var closed := TodoState(false, s.toDoValue);
      assert gs == [finish] && gs[0] == finish && gs[1..] == [];
      assert Handle(p, s, finish) == (closed, Some(Update(p.id, s.toDoValue)));
      assert Run(p, closed, []) == (closed, []);
      assert [Update(p.id, s.toDoValue)] + [] == [Update(p.id, s.toDoValue)];
    } else {
      var next := Handle(p, s, typed[0]).0;
      assert gs[0] == typed[0] && gs[1..] == typed[1..] + [finish];
      assert Handle(p, s, typed[0]) == (next, None);
      TypingThenFinish(p, next, typed[1..], finish);
      var text := LastTyped(s.toDoValue, typed);
      assert LastTyped(next.toDoValue, typed[1..]) == text;
      assert Run(p, next, gs[1..]) == (TodoState(false, text), [Update(p.id, text)]);
      assert Run(p, s, gs) == Run(p, next, gs[1..]);
    }
  }

  /** The whole edit cycle from a freshly mounted item: open the editor, type,
      finish. Without keystrokes the update carries the stored text unchanged. */
  lemma EditCycle(p: Props, typed: seq<Gesture>, finish: Gesture)
    requires forall i :: 0 <= i < |typed| ==> typed[i].ChangeText?
    requires finish == PressCheck || finish == Blur
    ensures Run(p, Mounted(p), [PressEdit] + typed + [finish]).1 == [Update(p.id, LastTyped(p.text, typed))]
    ensures !Run(p, Mounted(p), [PressEdit] + typed + [finish]).0.isEditing
  {
    var gs := [PressEdit] + typed + [finish];
    assert gs[1..] == typed + [finish];
    TypingThenFinish(p, TodoState(true, p.text), typed, finish);
  }

  /** The Todo component with its props, its state fields and its handlers. */
  class Todo {
    const props: Props
    var isEditing: bool
    var toDoValue: string

    function State(): TodoState
      reads this
    {
      TodoState(isEditing, toDoValue)
    }

    constructor (props: Props)
      ensures this.props == props && State() == Mounted(props)
      ensures !isEditing && toDoValue == props.text
    {
      this.props := props;
      isEditing := false;
      toDoValue := props.text;
    }

    /** Fires uncompleteToDo for a completed item and completeToDo otherwise. */
    method ToggleComplete() returns (fired: Action)
      ensures props.isCompleted ==> fired == Uncomplete(props.id)
      ensures !props.isCompleted ==> fired == Complete(props.id)
    {
      if props.isCompleted {
        fired := Uncomplete(props.id);
      } else {
        fired := Complete(props.id);
      }
    }

    /** Opens the inline editor; the draft is kept. */
    method StartEditing()
      modifies this
      ensures isEditing && toDoValue == old(toDoValue)
    {
      isEditing := true;
    }

    /** Fires updateToDo with the current draft, then closes the editor. */
    method FinishEditing() returns (fired: Action)
      modifies this
      ensures fired == Update(props.id, old(toDoValue))
      ensures !isEditing && toDoValue == old(toDoValue)
    {
      fired := Update(props.id, toDoValue);
      isEditing := false;
    }

    /** Keeps the draft in step with the inline editor. */
    method ControlInput(text: string)
      modifies this
      ensures toDoValue == text && isEditing == old(isEditing)
    {
      toDoValue := text;
    }

    /** Routes a gesture to the handler its control is wired to in the current
        rendering; the delete icon calls deleteToDo(id) directly. */
    method Respond(g: Gesture) returns (fired: Option<Action>)
      modifies this
      ensures (State(), fired) == Handle(props, old(State()), g)
    {
      if !Offered(State(), g) {
        fired := None;
        return;
      }
      match g
      case PressCircle =>
        var a := ToggleComplete();
        fired := Some(a);
      case PressCheck =>
        var a := FinishEditing();
        fired := Some(a);
      case Blur =>
        var a := FinishEditing();
        fired := Some(a);
      case ChangeText(t) =>
        ControlInput(t);
        fired := None;
      case PressEdit =>
        StartEditing();
        fired := None;
      case PressCancel =>
        fired := Some(Delete(props.id));
    }
  }
}
