/**
 * `gridToolbarReducer` and `INITIAL_STATE` of
 * app/grid-save-state/grid-toolbar-reducer.ts, over the `GridState` record and
 * the `GridActions` union of grid-state.ts and grid-actions.ts: the same
 * store as the toolbar reducer's under other field and action names, plus a
 * `hydrate` action that replaces the whole state.
 */
module GridToolbarReducer {
  import opened Options
  import opened ViewMap

  datatype GridState<S, E> = GridState(
    viewConfigs: Entries<StateView<S>>,
    viewName: string,
    currentViewId: Option<Id>,
    isMenuOpened: bool,
    menuAnchorElement: Option<E>)

  /** The `type` tags the reducer's `switch` has a case for, `hydrate` included. */
  predicate IsTag(t: string) {
    t == "hydrate" || t == "createView" || t == "deleteView" || t == "setViewLabel"
    || t == "setActiveView" || t == "togglePopupMenu" || t == "closePopupMenu"
  }

  /** A tag none of those cases matches: what reaches `default`. */
  type UnknownTag = t: string | !IsTag(t) witness ""

  /**
   * The actions, by their `type` tag. `Hydrate` is not a member of the
   * declared `GridActions` union, but the reducer has a case for it.
   * `Unrecognized` is an action object whose tag no case matches.
   */
  datatype GridAction<S, E> =
    | Hydrate(payload: GridState<S, E>)
    | CreateView(value: S)
    | DeleteView(id: Id)
    | SetViewLabel(text: string)
    | SetActiveView(activeId: Option<Id>)
    | TogglePopupMenu(element: E)
    | ClosePopupMenu
    | Unrecognized(tag: UnknownTag)

  predicate Valid<S, E>(s: GridState<S, E>) {
    DistinctKeys(s.viewConfigs)
  }

  function InitialState<S, E>(): GridState<S, E> {
    GridState([], "", None, false, None)
  }

  /**
   * One transition. `newId` is the id the `createView` case draws from
   * `crypto.randomUUID()`; the other cases ignore it.
   */
  function Reducer<S, E>(state: GridState<S, E>, action: GridAction<S, E>, newId: Id): (r: GridState<S, E>)
    ensures Valid(state) && (action.Hydrate? ==> Valid(action.payload)) ==> Valid(r)
  {
    match action
    case Hydrate(payload) =>
      payload
    case CreateView(value) =>
      state.(currentViewId := Some(newId),
             viewName := "",
             viewConfigs := Assign(state.viewConfigs, newId, StateView(state.viewName, value)),
             isMenuOpened := false)
    case DeleteView(id) =>
      var activeViewId :=
        if state.currentViewId != Some(id) then state.currentViewId
        // the fallback reads the keys of the map as it was before the filter
        else if |Keys(state.viewConfigs)| == 0 then None
        else Some(Keys(state.viewConfigs)[0]);
      state.(viewConfigs := Remove(state.viewConfigs, id), currentViewId := activeViewId)
    case SetActiveView(activeId) =>
      state.(currentViewId := activeId, isMenuOpened := false)
    case SetViewLabel(text) =>
      state.(viewName := text)
    case TogglePopupMenu(element) =>
      state.(isMenuOpened := !state.isMenuOpened, menuAnchorElement := Some(element))
    case ClosePopupMenu =>
      state.(isMenuOpened := false)
    case Unrecognized(_) =>
      state
  }

  /** The initial state: no views, an empty name, no current view, a closed menu with no anchor. */
  lemma InitialStateIsEmpty<S, E>()
    ensures Valid(InitialState<S, E>())
    ensures |InitialState<S, E>().viewConfigs| == 0 && InitialState<S, E>().currentViewId == None
    ensures InitialState<S, E>().viewName == ""
    ensures !InitialState<S, E>().isMenuOpened && InitialState<S, E>().menuAnchorElement == None
  {
  }

  /** `hydrate(p)` yields `p`, whatever the state before. */
  lemma HydrateReplaces<S, E>(s: GridState<S, E>, p: GridState<S, E>, newId: Id)
    ensures Reducer(s, Hydrate(p), newId) == p
    ensures Reducer(Reducer(s, Hydrate(p), newId), Hydrate(p), newId) == Reducer(s, Hydrate(p), newId)
  {
  }

  /**
   * `createView` with an id the map does not hold appends exactly
   * `k -> {label: viewName, value}`, makes it current, clears the name and
   * closes the menu; the anchor is untouched.
   */
  lemma CreateViewFresh<S, E>(s: GridState<S, E>, value: S, k: Id)
    requires !HasKey(s.viewConfigs, k)
    ensures var r := Reducer(s, CreateView(value), k);
      && r.viewConfigs == s.viewConfigs + [(k, StateView(s.viewName, value))]
      && r.currentViewId == Some(k)
      && r.viewName == ""
      && !r.isMenuOpened
      && r.menuAnchorElement == s.menuAnchorElement
  {
    AssignFresh(s.viewConfigs, k, StateView(s.viewName, value));
  }

  /**
   * `deleteView(id)` filters out exactly the entry keyed `id`; the name, the
   * menu flag and the anchor stay as they were.
   */
  lemma DeleteViewEntries<S, E>(s: GridState<S, E>, id: Id, newId: Id)
    requires Valid(s)
    ensures var r := Reducer(s, DeleteView(id), newId);
      && (forall i :: 0 <= i < |s.viewConfigs| && s.viewConfigs[i].0 == id ==>
            r.viewConfigs == s.viewConfigs[..i] + s.viewConfigs[i + 1..])
      && (!HasKey(s.viewConfigs, id) ==> r.viewConfigs == s.viewConfigs)
      && r.viewName == s.viewName
      && r.isMenuOpened == s.isMenuOpened
      && r.menuAnchorElement == s.menuAnchorElement
  {
    forall i | 0 <= i < |s.viewConfigs| && s.viewConfigs[i].0 == id
      ensures Remove(s.viewConfigs, id) == s.viewConfigs[..i] + s.viewConfigs[i + 1..]
    {
      RemoveAt(s.viewConfigs, i);
    }
    if !HasKey(s.viewConfigs, id) {
      RemoveAbsent(s.viewConfigs, id);
    }
  }

  /**
   * The current id after `deleteView(id)`: kept when it is not `id`,
   * otherwise the first key of the map before the filter (null only when
   * it was empty) — which, when the deleted view was first, is `id` again
   * and not "the first available view".
   */
  lemma DeleteViewCurrent<S, E>(s: GridState<S, E>, id: Id, newId: Id)
    requires Valid(s)
    ensures var r := Reducer(s, DeleteView(id), newId);
      && (s.currentViewId != Some(id) ==> r.currentViewId == s.currentViewId)
      && (s.currentViewId == Some(id) && s.viewConfigs == [] ==> r.currentViewId == None)
      && (s.currentViewId == Some(id) && s.viewConfigs != [] ==> r.currentViewId == Some(s.viewConfigs[0].0))
      && (s.currentViewId == Some(id) && s.viewConfigs != [] && s.viewConfigs[0].0 == id ==>
            r.currentViewId == Some(id) && !HasKey(r.viewConfigs, id))
  {
  }

  /** `setActiveView(x)` sets the current id to `x` and closes the menu; nothing else changes. */
  lemma SetActiveViewFrame<S, E>(s: GridState<S, E>, x: Option<Id>, newId: Id)
    ensures Reducer(s, SetActiveView(x), newId) == s.(currentViewId := x, isMenuOpened := false)
  {
  }

  /** `setViewLabel` changes the name only. */
  lemma SetViewLabelFrame<S, E>(s: GridState<S, E>, text: string, newId: Id)
    ensures Reducer(s, SetViewLabel(text), newId) == s.(viewName := text)
  {
  }

  /**
   * `togglePopupMenu(e)` flips the menu flag and anchors at `e`; applied
   * twice with `e` it gives back the flag it started from.
   */
  lemma ToggleLaw<S, E>(s: GridState<S, E>, e: E, id1: Id, id2: Id)
    ensures Reducer(s, TogglePopupMenu(e), id1) == s.(isMenuOpened := !s.isMenuOpened, menuAnchorElement := Some(e))
    ensures Reducer(Reducer(s, TogglePopupMenu(e), id1), TogglePopupMenu(e), id2) == s.(menuAnchorElement := Some(e))
  {
  }

  /**
   * `closePopupMenu` clears the menu flag and nothing else — the anchor is
   * kept, although the action's documentation says it is cleared — and is
   * idempotent.
   */
  lemma ClosePopupMenuIdempotent<S, E>(s: GridState<S, E>, id1: Id, id2: Id)
    ensures Reducer(s, ClosePopupMenu, id1) == s.(isMenuOpened := false)
    ensures Reducer(s, ClosePopupMenu, id1).menuAnchorElement == s.menuAnchorElement
    ensures Reducer(Reducer(s, ClosePopupMenu, id1), ClosePopupMenu, id2) == Reducer(s, ClosePopupMenu, id1)
  {
  }

  /** An action with an unknown tag returns the state unchanged. */
  lemma UnrecognizedIsIdentity<S, E>(s: GridState<S, E>, tag: UnknownTag, newId: Id)
    ensures Reducer(s, Unrecognized(tag), newId) == s
  {
  }
}
