/**
 * app/restore-api-ref.tsx: its own copy of the view-store reducer
 * (`demoReducer`, over the same `DemoState` and `DemoActions` shapes as
 * toolbar-reducer.ts), `DEMO_INITIAL_STATE`, and the non-rendering logic of
 * `CustomToolbar`: the handlers that talk to the grid widget and the store,
 * and the values derived from the store for the menu and the new-view form.
 */
module RestoreApiRef {
  import opened Options
  import opened ViewMap
  import opened Effects
  import opened ToolbarReducer
  import Popper

  /** `demoReducer`, written out as the file writes it. */
  function DemoReducer<S, E>(state: DemoState<S, E>, action: DemoAction<S, E>, newId: Id): (r: DemoState<S, E>)
    ensures Valid(state) ==> Valid(r)
  {
    match action
    case CreateView(value) =>
      state.(activeViewId := Some(newId),
             newViewLabel := "",
             views := Assign(state.views, newId, StateView(state.newViewLabel, value)),
             isMenuOpened := false)
    case DeleteView(id) =>
      var activeViewId :=
        if state.activeViewId != Some(id) then state.activeViewId
        else if |Keys(state.views)| == 0 then None
        else Some(Keys(state.views)[0]);
      state.(views := Remove(state.views, id), activeViewId := activeViewId)
    case SetActiveView(activeId) =>
      state.(activeViewId := activeId, isMenuOpened := false)
    case SetNewViewLabel(text) =>
      state.(newViewLabel := text)
    case TogglePopper(element) =>
      state.(isMenuOpened := !state.isMenuOpened, menuAnchorEl := Some(element))
    case ClosePopper =>
      state.(isMenuOpened := false)
    case Unrecognized(_) =>
      state
  }

  /** `DEMO_INITIAL_STATE`: the same empty store as toolbar-reducer.ts's `INITIAL_STATE`. */
  function DemoInitialState<S, E>(): (r: DemoState<S, E>)
    ensures r == InitialState<S, E>()
  {
    DemoState([], "", None, false, None)
  }

  /**
   * `isNewViewLabelValid`: false for an empty draft whatever the views;
   * otherwise true exactly when no saved view's label equals the draft.
   */
  function IsNewViewLabelValid<S, E>(s: DemoState<S, E>): (r: bool)
    ensures |s.newViewLabel| == 0 ==> !r
    ensures r <==> |s.newViewLabel| > 0 && forall i :: 0 <= i < |s.views| ==> s.views[i].1.viewLabel != s.newViewLabel
  {
    IsLabelValid(s.views, s.newViewLabel)
  }

  /**
   * Right after `createView` the label is not valid (the draft was
   * cleared), and typing the label just saved back in is not valid either.
   */
  lemma LabelInvalidAfterCreate<S, E>(s: DemoState<S, E>, value: S, newId: Id, id2: Id)
    ensures var r := DemoReducer(s, CreateView(value), newId);
      && !IsNewViewLabelValid(r)
      && !IsNewViewLabelValid(DemoReducer(r, SetNewViewLabel(s.newViewLabel), id2))
  {
    var r := DemoReducer(s, CreateView(value), newId);
    LookupFound(r.views, newId);
  }

  /**
   * The state cell of one `CustomToolbar`, and the effects its handlers
   * have had so far on the grid widget and on the cell, in order.
   */
  class CustomToolbar<S, E> {
    var state: DemoState<S, E>
    var effects: seq<Effect<S, DemoAction<S, E>>>

    /** `useReducer(demoReducer, DEMO_INITIAL_STATE)`. */
    constructor ()
      ensures state == DemoInitialState() && effects == []
    {
      state := DemoInitialState();
      effects := [];
    }

    /** `dispatch(action)`: the reducer runs with the id it draws. */
    method Dispatch(action: DemoAction<S, E>, newId: Id)
      modifies this
      ensures state == DemoReducer(old(state), action, newId)
      ensures effects == old(effects) + [Dispatched(action)]
    {
      state := DemoReducer(state, action, newId);
      effects := effects + [Dispatched(action)];
    }

    /**
     * `createNewView`: dispatches exactly one `createView` carrying the
     * snapshot the grid exports; with a fresh id the view is appended
     * under it, labelled with the draft, and becomes active.
     */
    method CreateNewView(exported: S, newId: Id)
      modifies this
      ensures state == DemoReducer(old(state), CreateView(exported), newId)
      ensures effects == old(effects) + [Dispatched(CreateView(exported))]
      ensures !HasKey(old(state).views, newId) ==>
        && state.views == old(state).views + [(newId, StateView(old(state).newViewLabel, exported))]
        && state.activeViewId == Some(newId)
    {
      if !HasKey(state.views, newId) {
        CreateViewFresh(state, exported, newId);
      }
      Dispatch(CreateView(exported), newId);
    }

    /** `handleNewViewLabelChange`: dispatches `setNewViewLabel` with the field's text. */
    method HandleNewViewLabelChange(text: string)
      modifies this
      ensures state == old(state).(newViewLabel := text)
      ensures effects == old(effects) + [Dispatched(SetNewViewLabel(text))]
    {
      Dispatch(SetNewViewLabel(text), "");
    }

    /** `handleDeleteView`: dispatches exactly `deleteView(viewId)`. */
    method HandleDeleteView(viewId: Id)
      modifies this
      ensures state == DemoReducer(old(state), DeleteView(viewId), "")
      ensures effects == old(effects) + [Dispatched(DeleteView(viewId))]
    {
      Dispatch(DeleteView(viewId), "");
    }

    /**
     * `handleSetActiveView`: restores the view's snapshot on the grid, then
     * dispatches `setActiveView`. For an id the store does not hold,
     * `state.views[viewId].value` throws before anything happens.
     */
    method HandleSetActiveView(viewId: Id) returns (threw: bool)
      modifies this
      ensures threw <==> !HasKey(old(state).views, viewId)
      ensures threw ==> state == old(state) && effects == old(effects)
      ensures !threw ==>
        && effects == old(effects) + [RestoreState(Lookup(old(state).views, viewId).value.value),
                                      Dispatched(SetActiveView(Some(viewId)))]
        && state == old(state).(activeViewId := Some(viewId), isMenuOpened := false)
        && HasKey(state.views, viewId)
    {
      var found := Lookup(state.views, viewId);
      if found.None? {
        return true;
      }
      effects := effects + [RestoreState(found.value.value)];
      Dispatch(SetActiveView(Some(viewId)), "");
      threw := false;
    }

    /** `handlePopperAnchorClick`: dispatches `togglePopper` with the clicked element. */
    method HandlePopperAnchorClick(currentTarget: E)
      modifies this
      ensures state == old(state).(isMenuOpened := !old(state).isMenuOpened, menuAnchorEl := Some(currentTarget))
      ensures effects == old(effects) + [Dispatched(TogglePopper(currentTarget))]
    {
      Dispatch(Popper.AnchorClick(currentTarget), "");
    }

    /** `handleClosePopper`: dispatches `closePopper`. */
    method HandleClosePopper()
      modifies this
      ensures state == old(state).(isMenuOpened := false)
      ensures effects == old(effects) + [Dispatched(ClosePopper)]
    {
      Dispatch(Popper.ClosePopperAction(), "");
    }

    /** `handleListKeyDown`: Tab or Escape dispatches `closePopper`; any other key does nothing. */
    method HandleListKeyDown(key: string)
      modifies this
      ensures key == "Tab" || key == "Escape" ==>
        state == old(state).(isMenuOpened := false) && effects == old(effects) + [Dispatched(ClosePopper)]
      ensures key != "Tab" && key != "Escape" ==> state == old(state) && effects == old(effects)
    {
      var action := Popper.ListKeyDown(key);
      if action.Some? {
        Dispatch(action.value, "");
      }
    }
  }
}
