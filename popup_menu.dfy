/**
 * The `usePopupMenu` hook of app/grid-save-state/usePopupMenu.ts: the menu
 * events mapped to `GridActions`. Its `canBeMenuOpened` and `popperId`
 * (usePopupMenu.ts:90-93) are `Popper.CanBeMenuOpened` and `Popper.PopperId`.
 */
module PopupMenu {
  import opened Options
  import opened ViewMap
  import opened GridToolbarReducer
  import Popper

  /** A click on the anchor dispatches exactly `togglePopupMenu` with the clicked element. */
  function HandleClick<S, E>(currentTarget: E): (a: GridAction<S, E>)
    ensures a.TogglePopupMenu? && a.element == currentTarget
  {
    TogglePopupMenu(currentTarget)
  }

  /** `handleClose` dispatches exactly `closePopupMenu`. */
  function HandleClose<S, E>(): (a: GridAction<S, E>)
    ensures a.ClosePopupMenu?
  {
    ClosePopupMenu
  }

  /** A key press on the list: `closePopupMenu` for "Tab" or "Escape", nothing for any other key. */
  function HandleListKeyDown<S, E>(key: string): (r: Option<GridAction<S, E>>)
    ensures r != None <==> key == "Tab" || key == "Escape"
    ensures r != None ==> r == Some(ClosePopupMenu)
  {
    if key == "Tab" then Some(ClosePopupMenu)
    else if key == "Escape" then Some(ClosePopupMenu)
    else None
  }

  /** The store after the handler's dispatch, if it made one. */
  function AfterDispatch<S, E>(s: GridState<S, E>, a: Option<GridAction<S, E>>, newId: Id): GridState<S, E> {
    if a.Some? then Reducer(s, a.value, newId) else s
  }

  /**
   * Composed with the grid toolbar reducer: after Tab or Escape the menu
   * cannot be shown and the popper has no id; any other key changes nothing.
   */
  lemma KeyDownThenReduce<S, E>(s: GridState<S, E>, key: string, newId: Id)
    ensures var r := AfterDispatch(s, HandleListKeyDown<S, E>(key), newId);
      && (key == "Tab" || key == "Escape" ==>
            && !Popper.CanBeMenuOpened(r.isMenuOpened, r.menuAnchorElement)
            && Popper.PopperId(r.isMenuOpened, r.menuAnchorElement) == None)
      && (key != "Tab" && key != "Escape" ==> r == s)
  {
  }

  /**
   * Composed with the grid toolbar reducer: a click shows the menu exactly
   * when it was hidden, and anchors it at the clicked element.
   */
  lemma ClickThenReduce<S, E>(s: GridState<S, E>, e: E, newId: Id)
    ensures var r := Reducer(s, HandleClick(e), newId);
      && Popper.CanBeMenuOpened(r.isMenuOpened, r.menuAnchorElement) == !s.isMenuOpened
      && r.menuAnchorElement == Some(e)
  {
  }
}
