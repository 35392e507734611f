/**
 * The `useGridViews` hook of app/grid-save-state/useGridViews.ts: the
 * module-level cache of one store per grid id, and the controller the hook
 * hands to the toolbar. The hook's helpers read and dispatch the `GridState`
 * and `GridActions` shapes, so the controller is modelled over those and the
 * grid toolbar reducer; the reducer the file actually passes to `useReducer`
 * is the toolbar reducer over `DemoState`, and what that wiring does is
 * modelled separately at the end of this module.
 */
module GridViews {
  import opened Options
  import opened ViewMap
  import opened Effects
  import opened GridToolbarReducer
  import T = ToolbarReducer
  import Popper
  import ReducerCopies

  /** The cache after `getInitialState(gridId)`: a copy of the initial state is added under `gridId` if it has no entry. */
  function WithEntry<S, E>(states: map<string, GridState<S, E>>, gridId: string): (r: map<string, GridState<S, E>>)
    ensures gridId in r
    ensures gridId in states ==> r[gridId] == states[gridId]
    ensures gridId !in states ==> r[gridId] == InitialState()
    ensures forall g :: g != gridId ==> (g in r <==> g in states)
    ensures forall g :: g != gridId && g in states ==> r[g] == states[g]
  {
    if gridId in states then states else states[gridId := InitialState()]
  }

  /** Getting the initial state twice leaves the cache and the answer as getting it once does. */
  lemma WithEntryIdempotent<S, E>(states: map<string, GridState<S, E>>, gridId: string)
    ensures WithEntry(WithEntry(states, gridId), gridId) == WithEntry(states, gridId)
  {
  }

  /** `gridStates`: the one `Map` shared by every hook instance on the page. */
  class GridStateCache<S, E> {
    var states: map<string, GridState<S, E>>

    constructor ()
      ensures states == map[]
    {
      states := map[];
    }

    /** `getInitialState`: set the entry if absent, then return it. */
    method GetInitialState(gridId: string) returns (r: GridState<S, E>)
      modifies this
      ensures states == WithEntry(old(states), gridId)
      ensures r == states[gridId]
      ensures gridId in old(states) ==> r == old(states)[gridId]
      ensures gridId !in old(states) ==> r == InitialState()
    {
      if gridId !in states {
        states := states[gridId := InitialState()];
      }
      r := states[gridId];
    }

    /** `gridStates.set(gridId, s)`. */
    method Set(gridId: string, s: GridState<S, E>)
      modifies this
      ensures states == old(states)[gridId := s]
    {
      states := states[gridId := s];
    }
  }

  /**
   * `isNewViewLabelValid`: false when `viewName` is empty; otherwise true
   * exactly when no entry of `viewConfigs` carries that label.
   */
  function IsNewViewLabelValid<S, E>(s: GridState<S, E>): (r: bool)
    ensures |s.viewName| == 0 ==> !r
    ensures r <==> |s.viewName| > 0 && forall i :: 0 <= i < |s.viewConfigs| ==> s.viewConfigs[i].1.viewLabel != s.viewName
  {
    IsLabelValid(s.viewConfigs, s.viewName)
  }

  /**
   * One mounted `useGridViews(gridId)`: its reducer state, the shared cache
   * it was initialised from and writes back to, and the effects its
   * handlers have had so far, in order.
   */
  class ViewsHook<S, E> {
    const gridId: string
    const cache: GridStateCache<S, E>
    var state: GridState<S, E>
    var effects: seq<Effect<S, GridAction<S, E>>>

    /** Mounting: `useReducer(reducer, getInitialState())`. */
    constructor (gridId: string, cache: GridStateCache<S, E>)
      modifies cache
      ensures this.gridId == gridId && this.cache == cache
      ensures cache.states == WithEntry(old(cache.states), gridId)
      ensures state == cache.states[gridId]
      ensures effects == []
    {
      this.gridId := gridId;
      this.cache := cache;
      var initial := cache.GetInitialState(gridId);
      state := initial;
      effects := [];
    }

    /**
     * The effect `gridStates.set(gridId, state)`: it writes under this
     * hook's own grid id only, so the entries of other grids are untouched.
     */
    method SyncState()
      modifies cache
      ensures cache.states == old(cache.states)[gridId := state]
      ensures forall g :: g != gridId ==> (g in cache.states <==> g in old(cache.states))
      ensures forall g :: g != gridId && g in old(cache.states) ==> cache.states[g] == old(cache.states)[g]
    {
      cache.Set(gridId, state);
    }

    /** `dispatch(action)`: the reducer runs with the id it draws. */
    method Dispatch(action: GridAction<S, E>, newId: Id)
      modifies this
      ensures state == Reducer(old(state), action, newId)
      ensures effects == old(effects) + [Dispatched(action)]
    {
      state := Reducer(state, action, newId);
      effects := effects + [Dispatched(action)];
    }

    /**
     * `createNewView`: dispatches exactly one `createView` with the
     * snapshot the grid exports; with a fresh id the view is appended
     * under it with the current name and becomes current.
     */
    method CreateNewView(exported: S, newId: Id)
      modifies this
      ensures state == Reducer(old(state), CreateView(exported), newId)
      ensures effects == old(effects) + [Dispatched(CreateView(exported))]
      ensures !HasKey(old(state).viewConfigs, newId) ==>
        && state.viewConfigs == old(state).viewConfigs + [(newId, StateView(old(state).viewName, exported))]
        && state.currentViewId == Some(newId)
    {
      if !HasKey(state.viewConfigs, newId) {
        CreateViewFresh(state, exported, newId);
      }
      Dispatch(CreateView(exported), newId);
    }

    /** `handleDeleteView`: dispatches exactly `deleteView(viewId)`. */
    method HandleDeleteView(viewId: Id)
      modifies this
      ensures state == Reducer(old(state), DeleteView(viewId), "")
      ensures effects == old(effects) + [Dispatched(DeleteView(viewId))]
    {
      Dispatch(DeleteView(viewId), "");
    }

    /**
     * `handleSetActiveView`: restores `viewConfigs[viewId].value` on the
     * grid, then dispatches `setActiveView`; for an id with no entry the
     * property access throws before either happens.
     */
    method HandleSetActiveView(viewId: Id) returns (threw: bool)
      modifies this
      ensures threw <==> !HasKey(old(state).viewConfigs, viewId)
      ensures threw ==> state == old(state) && effects == old(effects)
      ensures !threw ==>
        && effects == old(effects) + [RestoreState(Lookup(old(state).viewConfigs, viewId).value.value),
                                      Dispatched(SetActiveView(Some(viewId)))]
        && state == old(state).(currentViewId := Some(viewId), isMenuOpened := false)
        && HasKey(state.viewConfigs, viewId)
    {
      var found := Lookup(state.viewConfigs, viewId);
      if found.None? {
        return true;
      }
      effects := effects + [RestoreState(found.value.value)];
      Dispatch(SetActiveView(Some(viewId)), "");
      threw := false;
    }
  }

  // The wiring as written: useGridViews.ts passes `toolbarReducer` to
  // `useReducer`, while the hook and the toolbar dispatch `GridActions`.

  /**
   * What `toolbarReducer` makes of a `GridActions` object: it switches on the
   * `type` tag, and only `createView`, `deleteView` and `setActiveView`
   * carry a tag (and fields) it knows.
   */
  function AsWrittenAction<S, E>(a: GridAction<S, E>): (r: T.DemoAction<S, E>)
    requires ReducerCopies.RenamesToDemo(a)
    ensures r.Unrecognized? <==> !(a.CreateView? || a.DeleteView? || a.SetActiveView?)
  {
    match a
    case Hydrate(_) => T.Unrecognized("hydrate")
    case CreateView(value) => T.CreateView(value)
    case DeleteView(id) => T.DeleteView(id)
    case SetViewLabel(_) => T.Unrecognized("setViewLabel")
    case SetActiveView(activeId) => T.SetActiveView(activeId)
    case TogglePopupMenu(_) => T.Unrecognized("togglePopupMenu")
    case ClosePopupMenu => T.Unrecognized("closePopupMenu")
    case Unrecognized(tag) => T.Unrecognized(tag)
  }

  /** A `GridActions` dispatch handled by the reducer the hook actually wires. */
  function DispatchAsWritten<S, E>(s: T.DemoState<S, E>, a: GridAction<S, E>, newId: Id): T.DemoState<S, E>
    requires ReducerCopies.RenamesToDemo(a)
  {
    T.Reducer(s, AsWrittenAction(a), newId)
  }

  /**
   * As written, the label field, the anchor click, the menu close and
   * `hydrate` are all no-ops: the store never sees what the user types and
   * the menu never opens.
   */
  lemma AsWrittenIgnoresLabelAndMenu<S, E>(s: T.DemoState<S, E>, text: string, e: E, p: GridState<S, E>, newId: Id)
    ensures DispatchAsWritten(s, SetViewLabel(text), newId) == s
    ensures DispatchAsWritten(s, TogglePopupMenu(e), newId) == s
    ensures DispatchAsWritten(s, ClosePopupMenu, newId) == s
    ensures DispatchAsWritten(s, Hydrate(p), newId) == s
  {
  }

  /**
   * A concrete run of the wiring as written from the initial store: type
   * "A" into the label field and click the anchor; the draft stays empty
   * (so no view can be saved) and the menu stays closed.
   */
  lemma AsWrittenTypeAndClick<S, E>(e: E, newId: Id)
    ensures var s := DispatchAsWritten(DispatchAsWritten(T.InitialState<S, E>(), SetViewLabel("A"), newId), TogglePopupMenu(e), newId);
      && s.newViewLabel == ""
      && !IsLabelValid(s.views, s.newViewLabel)
      && !Popper.CanBeMenuOpened(s.isMenuOpened, s.menuAnchorEl)
  {
  }

  /**
   * The same run with the grid toolbar reducer the hook's types call for:
   * the draft becomes "A", which is a valid label, and the menu opens at
   * the clicked element.
   */
  lemma IntendedTypeAndClick<S, E>(e: E, newId: Id)
    ensures var s := Reducer(Reducer(InitialState<S, E>(), SetViewLabel("A"), newId), TogglePopupMenu(e), newId);
      && s.viewName == "A"
      && IsNewViewLabelValid(s)
      && Popper.CanBeMenuOpened(s.isMenuOpened, s.menuAnchorElement)
  {
  }
}
