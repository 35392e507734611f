/**
 * The view-store reducer is written three times: `toolbarReducer`
 * (toolbar-reducer.ts), `demoReducer` (restore-api-ref.tsx) and
 * `gridToolbarReducer` (grid-toolbar-reducer.ts, with renamed fields and
 * actions and an extra `hydrate`). This module shows that they are one
 * transition function.
 */
module ReducerCopies {
  import opened Options
  import opened ViewMap
  import T = ToolbarReducer
  import G = GridToolbarReducer
  import RestoreApiRef

  /** The field renaming `views`/`newViewLabel`/`activeViewId`/`menuAnchorEl` to the grid names. */
  function ToGrid<S, E>(d: T.DemoState<S, E>): (g: G.GridState<S, E>)
    ensures g.viewConfigs == d.views && g.viewName == d.newViewLabel && g.currentViewId == d.activeViewId
    ensures g.isMenuOpened == d.isMenuOpened && g.menuAnchorElement == d.menuAnchorEl
  {
    G.GridState(d.views, d.newViewLabel, d.activeViewId, d.isMenuOpened, d.menuAnchorEl)
  }

  /** The renaming back. */
  function ToDemo<S, E>(g: G.GridState<S, E>): (d: T.DemoState<S, E>)
    ensures ToGrid(d) == g
  {
    T.DemoState(g.viewConfigs, g.viewName, g.currentViewId, g.isMenuOpened, g.menuAnchorElement)
  }

  /** The renaming is a bijection: renaming a store and back gives the same store. */
  lemma RenamingRoundTrip<S, E>(d: T.DemoState<S, E>)
    ensures ToDemo(ToGrid(d)) == d
    ensures G.Valid(ToGrid(d)) <==> T.Valid(d)
  {
  }

  /**
   * An action object of unknown tag renames to the other side only when
   * that side has no case for its tag either: an object carrying, say, the
   * tag `setViewLabel` without a label field is not something the model
   * can reduce.
   */
  predicate RenamesToGrid<S, E>(a: T.DemoAction<S, E>) {
    a.Unrecognized? ==> !G.IsTag(a.tag)
  }

  /** The same condition read from the grid side. */
  predicate RenamesToDemo<S, E>(b: G.GridAction<S, E>) {
    b.Unrecognized? ==> !T.IsTag(b.tag)
  }

  /** The action renaming: `setNewViewLabel`, `togglePopper`, `closePopper` to the grid names. */
  function ToGridAction<S, E>(a: T.DemoAction<S, E>): (b: G.GridAction<S, E>)
    requires RenamesToGrid(a)
    ensures !b.Hydrate?
  {
    match a
    case CreateView(value) => G.CreateView(value)
    case DeleteView(id) => G.DeleteView(id)
    case SetNewViewLabel(text) => G.SetViewLabel(text)
    case SetActiveView(activeId) => G.SetActiveView(activeId)
    case TogglePopper(element) => G.TogglePopupMenu(element)
    case ClosePopper => G.ClosePopupMenu
    case Unrecognized(tag) => G.Unrecognized(tag)
  }

  /** The renaming back; `hydrate` has no counterpart in `DemoActions`. */
  function ToDemoAction<S, E>(b: G.GridAction<S, E>): (a: Option<T.DemoAction<S, E>>)
    requires RenamesToDemo(b)
    ensures a.None? <==> b.Hydrate?
    ensures a.Some? ==> RenamesToGrid(a.value) && ToGridAction(a.value) == b
  {
    match b
    case Hydrate(_) => None
    case CreateView(value) => Some(T.CreateView(value))
    case DeleteView(id) => Some(T.DeleteView(id))
    case SetViewLabel(text) => Some(T.SetNewViewLabel(text))
    case SetActiveView(activeId) => Some(T.SetActiveView(activeId))
    case TogglePopupMenu(element) => Some(T.TogglePopper(element))
    case ClosePopupMenu => Some(T.ClosePopper)
    case Unrecognized(tag) => Some(T.Unrecognized(tag))
  }

  /** `demoReducer` and `toolbarReducer` agree on every state, action and drawn id. */
  lemma DemoReducerIsToolbarReducer<S, E>(s: T.DemoState<S, E>, a: T.DemoAction<S, E>, newId: Id)
    ensures RestoreApiRef.DemoReducer(s, a, newId) == T.Reducer(s, a, newId)
  {
  }

  /**
   * `gridToolbarReducer` is `toolbarReducer` under the renaming: reducing a
   * renamed store by a renamed action gives the renamed result.
   */
  lemma GridReducerIsRenamedToolbarReducer<S, E>(s: T.DemoState<S, E>, a: T.DemoAction<S, E>, newId: Id)
    requires RenamesToGrid(a)
    ensures G.Reducer(ToGrid(s), ToGridAction(a), newId) == ToGrid(T.Reducer(s, a, newId))
  {
  }

  /** And read the other way: every grid action but `hydrate` does what its toolbar counterpart does. */
  lemma GridActionsAsToolbarActions<S, E>(g: G.GridState<S, E>, b: G.GridAction<S, E>, newId: Id)
    requires !b.Hydrate? && RenamesToDemo(b)
    ensures ToDemo(G.Reducer(g, b, newId)) == T.Reducer(ToDemo(g), ToDemoAction(b).value, newId)
  {
    assert ToGrid(ToDemo(g)) == g;
    GridReducerIsRenamedToolbarReducer(ToDemo(g), ToDemoAction(b).value, newId);
    RenamingRoundTrip(T.Reducer(ToDemo(g), ToDemoAction(b).value, newId));
  }
}
