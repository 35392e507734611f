/**
 * The `usePopper` hook of app/grid-save-state/usePopper.ts: what the menu
 * derives from the store (`canBeMenuOpened`, `popperId`) and which action, if
 * any, each menu event dispatches, over `DemoActions`. The same two
 * derivations are written out again in usePopupMenu.ts:90-93 and
 * restore-api-ref.tsx:258-259; they do not depend on the action type, so
 * they are defined once, here.
 */
module Popper {
  import opened Options
  import opened ViewMap
  import opened ToolbarReducer

  const PopperIdText := "transition-popper"

  /**
   * `isMenuOpened && Boolean(menuAnchorEl)`: an element is always truthy,
   * so this holds exactly when the flag is set and an anchor is present.
   */
  function CanBeMenuOpened<E>(isMenuOpened: bool, menuAnchorEl: Option<E>): (r: bool)
    ensures r <==> isMenuOpened && menuAnchorEl != None
  {
    isMenuOpened && menuAnchorEl.Some?
  }

  /** The popper's element id: `"transition-popper"` exactly when the menu can be shown, else undefined. */
  function PopperId<E>(isMenuOpened: bool, menuAnchorEl: Option<E>): (r: Option<string>)
    ensures r != None <==> CanBeMenuOpened(isMenuOpened, menuAnchorEl)
    ensures r != None ==> r == Some("transition-popper")
  {
    if CanBeMenuOpened(isMenuOpened, menuAnchorEl) then Some(PopperIdText) else None
  }

  /** A click on the anchor dispatches exactly `togglePopper` with the clicked element. */
  function AnchorClick<S, E>(currentTarget: E): (a: DemoAction<S, E>)
    ensures a.TogglePopper? && a.element == currentTarget
  {
    TogglePopper(currentTarget)
  }

  /** `handleClosePopper` dispatches exactly `closePopper`. */
  function ClosePopperAction<S, E>(): (a: DemoAction<S, E>)
    ensures a.ClosePopper?
  {
    ClosePopper
  }

  /** A key press on the list: `closePopper` for "Tab" or "Escape", nothing for any other key. */
  function ListKeyDown<S, E>(key: string): (r: Option<DemoAction<S, E>>)
    ensures r != None <==> key == "Tab" || key == "Escape"
    ensures r != None ==> r == Some(ClosePopper)
  {
    if key == "Tab" then Some(ClosePopper)
    else if key == "Escape" then Some(ClosePopper)
    else None
  }

  /** The store after the handler's dispatch, if it made one. */
  function AfterDispatch<S, E>(s: DemoState<S, E>, a: Option<DemoAction<S, E>>, newId: Id): DemoState<S, E> {
    if a.Some? then Reducer(s, a.value, newId) else s
  }

  /**
   * Composed with the toolbar reducer: after Tab or Escape the menu cannot
   * be shown; after any other key the store is unchanged.
   */
  lemma KeyDownThenReduce<S, E>(s: DemoState<S, E>, key: string, newId: Id)
    ensures var r := AfterDispatch(s, ListKeyDown<S, E>(key), newId);
      && (key == "Tab" || key == "Escape" ==> !CanBeMenuOpened(r.isMenuOpened, r.menuAnchorEl) && r.menuAnchorEl == s.menuAnchorEl)
      && (key != "Tab" && key != "Escape" ==> r == s)
  {
  }

  /**
   * Composed with the toolbar reducer, from a closed menu: one click on an
   * element shows the menu anchored there; a second click on the same
   * element hides it again, the anchor staying set.
   */
  lemma TwoClicksFromClosed<S, E>(s: DemoState<S, E>, e: E, id1: Id, id2: Id)
    requires !s.isMenuOpened
    ensures var once := Reducer(s, AnchorClick(e), id1);
      CanBeMenuOpened(once.isMenuOpened, once.menuAnchorEl) && PopperId(once.isMenuOpened, once.menuAnchorEl) == Some("transition-popper")
    ensures var twice := Reducer(Reducer(s, AnchorClick(e), id1), AnchorClick(e), id2);
      !CanBeMenuOpened(twice.isMenuOpened, twice.menuAnchorEl) && twice.menuAnchorEl == Some(e)
      && PopperId(twice.isMenuOpened, twice.menuAnchorEl) == None
  {
  }
}
