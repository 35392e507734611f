/**
 * `toolbarReducer` and `INITIAL_STATE` of app/grid-save-state/toolbar-reducer.ts,
 * over the `DemoState` record and the `DemoActions` union of demo-state.ts and
 * demo-actions.ts. The grid snapshot (`GridInitialState`) is the opaque type
 * `S`, the anchor element (`HTMLElement`) the opaque type `E`.
 */
module ToolbarReducer {
  import opened Options
  import opened ViewMap

  datatype DemoState<S, E> = DemoState(
    views: Entries<StateView<S>>,
    newViewLabel: string,
    activeViewId: Option<Id>,
    isMenuOpened: bool,
    menuAnchorEl: Option<E>)

  /** The `type` tags the reducer's `switch` has a case for. */
  predicate IsTag(t: string) {
    t == "createView" || t == "deleteView" || t == "setNewViewLabel"
    || t == "setActiveView" || t == "togglePopper" || t == "closePopper"
  }

  /** A tag none of those cases matches: what reaches `default`. */
  type UnknownTag = t: string | !IsTag(t) witness ""

  /**
   * The actions, by their `type` tag. `Unrecognized` stands for an action
   * object whose tag is none of the six, which the `default` case handles.
   */
  datatype DemoAction<S, E> =
    | CreateView(value: S)
    | DeleteView(id: Id)
    | SetNewViewLabel(text: string)
    | SetActiveView(activeId: Option<Id>)
    | TogglePopper(element: E)
    | ClosePopper
    | Unrecognized(tag: UnknownTag)

  /** The entries of `views` have distinct keys, as every object's do. */
  predicate Valid<S, E>(s: DemoState<S, E>) {
    DistinctKeys(s.views)
  }

  function InitialState<S, E>(): DemoState<S, E> {
    DemoState([], "", None, false, None)
  }

  /**
   * One transition. `newId` is the id the `createView` case draws from
   * `Math.random().toString()`; the other cases ignore it.
   */
  function Reducer<S, E>(state: DemoState<S, E>, action: DemoAction<S, E>, newId: Id): (r: DemoState<S, E>)
    ensures Valid(state) ==> Valid(r)
  {
    match action
    case CreateView(value) =>
      state.(activeViewId := Some(newId),
             newViewLabel := "",
             views := Assign(state.views, newId, StateView(state.newViewLabel, value)),
             isMenuOpened := false)
    case DeleteView(id) =>
      var activeViewId :=
        if state.activeViewId != Some(id) then state.activeViewId
        // the fallback reads the keys of the map as it was before the filter
        else if |Keys(state.views)| == 0 then None
        else Some(Keys(state.views)[0]);
      state.(views := Remove(state.views, id), activeViewId := activeViewId)
    case SetActiveView(activeId) =>
      state.(activeViewId := activeId, isMenuOpened := false)
    case SetNewViewLabel(text) =>
      state.(newViewLabel := text)
    case TogglePopper(element) =>
      state.(isMenuOpened := !state.isMenuOpened, menuAnchorEl := Some(element))
    case ClosePopper =>
      state.(isMenuOpened := false)
    case Unrecognized(_) =>
      state
  }

  /** The initial state holds no views, an empty draft, no active view and a closed, unanchored menu. */
  lemma InitialStateIsEmpty<S, E>()
    ensures Valid(InitialState<S, E>())
    ensures |InitialState<S, E>().views| == 0 && InitialState<S, E>().activeViewId == None
    ensures !InitialState<S, E>().isMenuOpened && InitialState<S, E>().menuAnchorEl == None
    ensures !IsLabelValid(InitialState<S, E>().views, InitialState<S, E>().newViewLabel)
  {
  }

  /**
   * `createView` with an id the map does not hold appends exactly one entry,
   * labelled with the old draft, and makes it active; the draft is cleared,
   * the menu closed, the anchor untouched.
   */
  lemma CreateViewFresh<S, E>(s: DemoState<S, E>, value: S, k: Id)
    requires !HasKey(s.views, k)
    ensures var r := Reducer(s, CreateView(value), k);
      && r.views == s.views + [(k, StateView(s.newViewLabel, value))]
      && |r.views| == |s.views| + 1
      && r.activeViewId == Some(k)
      && r.newViewLabel == ""
      && !r.isMenuOpened
      && r.menuAnchorEl == s.menuAnchorEl
  {
    AssignFresh(s.views, k, StateView(s.newViewLabel, value));
  }

  /**
   * `deleteView(id)` drops exactly the entry keyed `id`, the others keeping
   * their order and values; for an id the map does not hold the views stay
   * as they were. The draft, the menu flag and the anchor never change.
   */
  lemma DeleteViewEntries<S, E>(s: DemoState<S, E>, id: Id, newId: Id)
    requires Valid(s)
    ensures var r := Reducer(s, DeleteView(id), newId);
      && (forall i :: 0 <= i < |s.views| && s.views[i].0 == id ==>
            r.views == s.views[..i] + s.views[i + 1..])
      && (!HasKey(s.views, id) ==> r.views == s.views)
      && r.newViewLabel == s.newViewLabel
      && r.isMenuOpened == s.isMenuOpened
      && r.menuAnchorEl == s.menuAnchorEl
  {
    forall i | 0 <= i < |s.views| && s.views[i].0 == id
      ensures Remove(s.views, id) == s.views[..i] + s.views[i + 1..]
    {
      RemoveAt(s.views, i);
    }
    if !HasKey(s.views, id) {
      RemoveAbsent(s.views, id);
    }
  }

  /**
   * The active id after `deleteView(id)`: kept when it is not `id`;
   * otherwise the first key of the map as it was BEFORE the deletion, and
   * null only when that map was empty.
   */
  lemma DeleteViewActive<S, E>(s: DemoState<S, E>, id: Id, newId: Id)
    ensures var r := Reducer(s, DeleteView(id), newId);
      && (s.activeViewId != Some(id) ==> r.activeViewId == s.activeViewId)
      && (s.activeViewId == Some(id) && s.views == [] ==> r.activeViewId == None)
      && (s.activeViewId == Some(id) && s.views != [] ==> r.activeViewId == Some(s.views[0].0))
  {
  }

  /**
   * Deleting the active view when it is first in order leaves the active id
   * on the key just deleted: "the active id is a key of the map" is not an
   * invariant of this reducer.
   */
  lemma DeleteFirstActiveDangles<S, E>(s: DemoState<S, E>, newId: Id)
    requires Valid(s) && s.views != [] && s.activeViewId == Some(s.views[0].0)
    ensures var r := Reducer(s, DeleteView(s.views[0].0), newId);
      r.activeViewId == Some(s.views[0].0) && !HasKey(r.views, s.views[0].0)
  {
  }

  /**
   * Deleting the active view when it is not first in order re-points the
   * active id at a view that remains: the first one.
   */
  lemma DeleteLaterActiveRepoints<S, E>(s: DemoState<S, E>, i: nat, newId: Id)
    requires Valid(s) && 0 < i < |s.views| && s.activeViewId == Some(s.views[i].0)
    ensures var r := Reducer(s, DeleteView(s.views[i].0), newId);
      && r.activeViewId == Some(s.views[0].0)
      && HasKey(r.views, s.views[0].0)
  {
    KeyAtIndex(s.views[1..], i - 1);
  }

  /** A concrete run: two views, the first active; deleting it leaves the active id on it. */
  lemma DeleteActiveFirstOfTwo<S, E>(v1: S, v2: S, anchor: Option<E>)
    ensures var s := DemoState([("id1", StateView("A", v1)), ("id2", StateView("B", v2))], "", Some("id1"), false, anchor);
      var r := Reducer(s, DeleteView("id1"), "");
      && r.views == [("id2", StateView("B", v2))]
      && r.activeViewId == Some("id1")
  {
    var m := [("id1", StateView("A", v1)), ("id2", StateView("B", v2))];
    assert "id2" != "id1" by { assert "id2"[2] != "id1"[2]; }
    assert m[1..] == [("id2", StateView("B", v2))];
    assert Remove(m[1..], "id1") == [("id2", StateView("B", v2))] + Remove(m[1..][1..], "id1");
    assert Remove(m, "id1") == [("id2", StateView("B", v2))];
    assert Keys(m)[0] == "id1";
  }

  /**
   * `setActiveView(x)` records `x` as it comes (a missing id or null
   * included) and closes the menu; nothing else changes.
   */
  lemma SetActiveViewFrame<S, E>(s: DemoState<S, E>, x: Option<Id>, newId: Id)
    ensures var r := Reducer(s, SetActiveView(x), newId);
      && r.activeViewId == x && !r.isMenuOpened
      && r.views == s.views && r.newViewLabel == s.newViewLabel && r.menuAnchorEl == s.menuAnchorEl
  {
  }

  /** `setNewViewLabel` changes the draft and nothing else. */
  lemma SetNewViewLabelFrame<S, E>(s: DemoState<S, E>, text: string, newId: Id)
    ensures Reducer(s, SetNewViewLabel(text), newId) == s.(newViewLabel := text)
  {
  }

  /**
   * `togglePopper(e)` flips the menu flag and anchors at `e`; twice with the
   * same element it restores the flag and leaves the anchor at `e`.
   */
  lemma ToggleLaw<S, E>(s: DemoState<S, E>, e: E, id1: Id, id2: Id)
    ensures var once := Reducer(s, TogglePopper(e), id1);
      && once.isMenuOpened == !s.isMenuOpened && once.menuAnchorEl == Some(e)
      && once.views == s.views && once.newViewLabel == s.newViewLabel && once.activeViewId == s.activeViewId
    ensures var twice := Reducer(Reducer(s, TogglePopper(e), id1), TogglePopper(e), id2);
      twice == s.(menuAnchorEl := Some(e))
  {
  }

  /** `closePopper` clears the menu flag only, keeps the anchor, and is idempotent. */
  lemma ClosePopperIdempotent<S, E>(s: DemoState<S, E>, id1: Id, id2: Id)
    ensures Reducer(s, ClosePopper, id1) == s.(isMenuOpened := false)
    ensures Reducer(Reducer(s, ClosePopper, id1), ClosePopper, id2) == Reducer(s, ClosePopper, id1)
  {
  }

  /** An action with an unknown tag returns the state unchanged. */
  lemma UnrecognizedIsIdentity<S, E>(s: DemoState<S, E>, tag: UnknownTag, newId: Id)
    ensures Reducer(s, Unrecognized(tag), newId) == s
  {
  }

  /** The states `useReducer` goes through for a sequence of dispatches, each with the id its reducer call draws. */
  function Run<S, E>(s: DemoState<S, E>, steps: seq<(DemoAction<S, E>, Id)>): (r: DemoState<S, E>)
    decreases |steps|
  {
    if steps == [] then s else Run(Reducer(s, steps[0].0, steps[0].1), steps[1..])
  }

  /** Every reachable state keeps distinct keys. */
  lemma {:induction false} RunPreservesValid<S, E>(s: DemoState<S, E>, steps: seq<(DemoAction<S, E>, Id)>)
    requires Valid(s)
    ensures Valid(Run(s, steps))
    decreases |steps|
  {
    if steps != [] {
      RunPreservesValid(Reducer(s, steps[0].0, steps[0].1), steps[1..]);
    }
  }

  /** Ids none of which the map holds and no two of which are equal. */
  predicate FreshIds<V>(m: Entries<V>, ids: seq<Id>) {
    forall i :: 0 <= i < |ids| ==> !HasKey(m, ids[i]) && forall j :: i < j < |ids| ==> ids[i] != ids[j]
  }

  /** The dispatches `createView(values[i])` in order, the i-th drawing `ids[i]`. */
  function CreateSteps<S, E>(values: seq<S>, ids: seq<Id>): (steps: seq<(DemoAction<S, E>, Id)>)
    requires |values| == |ids|
    ensures |steps| == |ids|
    ensures forall i :: 0 <= i < |ids| ==> steps[i] == (CreateView(values[i]), ids[i])
  {
    if ids == [] then [] else [(CreateView(values[0]), ids[0])] + CreateSteps(values[1..], ids[1..])
  }

  /**
   * A sequence of `createView` dispatches with fresh, pairwise distinct ids
   * grows `views` by one entry per dispatch, each new entry appended in
   * order with its id and its snapshot, the old entries untouched.
   */
  lemma {:induction false} CreateViewsGrow<S, E>(s: DemoState<S, E>, values: seq<S>, ids: seq<Id>)
    requires |values| == |ids| && FreshIds(s.views, ids)
    ensures var r := Run(s, CreateSteps<S, E>(values, ids));
      && |r.views| == |s.views| + |ids|
      && r.views[..|s.views|] == s.views
      && (forall i :: 0 <= i < |ids| ==> r.views[|s.views| + i].0 == ids[i] && r.views[|s.views| + i].1.value == values[i])
    decreases |ids|
  {
    if ids != [] {
      var s' := Reducer(s, CreateView(values[0]), ids[0]);
      CreateViewFresh(s, values[0], ids[0]);
      assert CreateSteps<S, E>(values, ids)[1..] == CreateSteps<S, E>(values[1..], ids[1..]);
      FreshIdsTail(s, values[0], ids);
      CreateViewsGrow(s', values[1..], ids[1..]);
      var r := Run(s', CreateSteps<S, E>(values[1..], ids[1..]));
      assert r == Run(s, CreateSteps<S, E>(values, ids));
      assert r.views[..|s.views|] == r.views[..|s'.views|][..|s.views|];
      forall i | 0 <= i < |ids|
        ensures r.views[|s.views| + i].0 == ids[i] && r.views[|s.views| + i].1.value == values[i]
      {
        if i == 0 {
          assert r.views[|s.views|] == r.views[..|s'.views|][|s.views|];
        } else {
          assert |s.views| + i == |s'.views| + (i - 1);
          assert ids[1..][i - 1] == ids[i] && values[1..][i - 1] == values[i];
        }
      }
    }
  }

  /** After a nonempty sequence of `createView` dispatches the last created view is the active one. */
  lemma {:induction false} CreateViewsLastActive<S, E>(s: DemoState<S, E>, values: seq<S>, ids: seq<Id>)
    requires |values| == |ids| && ids != []
    ensures Run(s, CreateSteps<S, E>(values, ids)).activeViewId == Some(ids[|ids| - 1])
    decreases |ids|
  {
    var s' := Reducer(s, CreateView(values[0]), ids[0]);
    assert CreateSteps<S, E>(values, ids)[1..] == CreateSteps<S, E>(values[1..], ids[1..]);
    if |ids| == 1 {
      assert CreateSteps<S, E>(values[1..], ids[1..]) == [];
    } else {
      CreateViewsLastActive(s', values[1..], ids[1..]);
      assert ids[1..][|ids[1..]| - 1] == ids[|ids| - 1];
    }
  }

  /** After the first creation the remaining ids are still fresh. */
  lemma FreshIdsTail<S, E>(s: DemoState<S, E>, value: S, ids: seq<Id>)
    requires ids != [] && FreshIds(s.views, ids)
    ensures FreshIds(Reducer(s, CreateView(value), ids[0]).views, ids[1..])
  {
    var r := Reducer(s, CreateView(value), ids[0]);
    forall i | 0 <= i < |ids[1..]| ensures !HasKey(r.views, ids[1..][i]) {
      assert ids[1..][i] == ids[i + 1];
      assert ids[0] != ids[i + 1];
    }
  }
}
