# Saved grid views: the view store, its controllers and its menu logic

This project models the state layer behind the "custom view" menu of a data-grid
toolbar. A user saves the grid's current configuration under a label, switches between
saved views, and deletes them. The layer is a small reducer over a store record that holds:

- `views`: an object from view id to `{label, value}`, in enumeration order;
- a draft label for the next view;
- the active view id, or null;
- a menu-open flag;
- the menu's anchor element, or null.

The repository writes this reducer three times:

- `toolbarReducer` in `app/grid-save-state/toolbar-reducer.ts`;
- `demoReducer` in `app/restore-api-ref.tsx`, a textual copy;
- `gridToolbarReducer` in `app/grid-save-state/grid-toolbar-reducer.ts`, with renamed
  fields and actions and an extra `hydrate` action.

Around the reducer sit the controllers: `CustomToolbar` in `restore-api-ref.tsx` and the
`useGridViews` hook. They capture or restore grid snapshots, and then dispatch. The menu
hooks `usePopper` and `usePopupMenu` derive whether the menu can be shown and map clicks
and key presses to actions.

Modelling choices:

- **Reducers.** Each reducer is a total Dafny function over a datatype, one module per
  file. The grid snapshot (`GridInitialState`) and the anchor (`HTMLElement`) are opaque
  type parameters `S` and `E`.
- **Object order.** A dictionary object is a `seq<(Id, V)>` with distinct keys (module
  `ViewMap`), so the key order that `Object.keys` reports is explicit. The spread
  `{...m, [k]: v}` overwrites an existing key where it stands, or appends a new key.
  `Object.fromEntries(Object.entries(m).filter(...))` keeps order.
- **Ids.** The id that `Math.random()` or `crypto.randomUUID()` would produce is a
  parameter `newId` of the reducer. Lemmas that need it fresh say so in their
  `requires`.
- **Unknown actions.** An action whose `type` tag the reducer does not know is the
  constructor `Unrecognized(tag)`, which the `default` case handles. The tag is typed
  `UnknownTag`, which excludes every tag that reducer's `switch` has a case for, so
  `Unrecognized("togglePopper")` cannot be written for the toolbar reducer. The tags of
  the toolbar and grid action sets differ. An action object renames to the other side's
  reducer only when its tag is unknown there too (`ReducerCopies.RenamesToGrid`,
  `ReducerCopies.RenamesToDemo`).
- **`hydrate` widens `GridActions`.** The declared union at `grid-actions.ts:8-49` has no
  `hydrate` variant. The case at `grid-toolbar-reducer.ts:16-19` can therefore only be
  reached by an object outside that type, and `action.payload` does not type-check there.
  The model adds `Hydrate(payload)` to `GridAction` so that this case of the reducer is
  covered. In the table below, "the declared union" means the variants grid-actions.ts
  lists, which exclude `Hydrate`.
- **Controllers.** Each controller is a class. Its `state` field is the `useReducer`
  cell. Its `effects` field records, in order, every `restoreState` call on the grid and
  every dispatch. The snapshot that `exportState()` returns is a method parameter. The
  module-level `gridStates` map is a class with a `map` field that its methods update.

Behaviour of the code that the model reproduces:

- **The `deleteView` fallback reads the keys of the map before the deletion.** When the
  deleted view is active and first in order, the active id stays on the deleted key.
  "The active id is a saved key" is therefore not an invariant. In the case of two views
  with `id1` active, deleting `id1` leaves the active id at `id1`, not at `id2`.
  `DeleteFirstActiveDangles` and `DeleteActiveFirstOfTwo` state this. The doc comment at
  `grid-toolbar-reducer.ts:43-47` promises "the first available view". The model
  follows the code.
- **`closePopupMenu` keeps the anchor.** The documentation at `grid-actions.ts:44-46`
  says the anchor is cleared. `setActiveView(null)` does not reset the grid, which
  `grid-actions.ts:32-34` claims it does. The model follows the code.
- **A missing id throws.** `handleSetActiveView` with an id the store does not hold
  throws at `views[viewId].value`, before `restoreState` and before the dispatch. The
  model returns `threw == true` with nothing changed. There is no separate "not found"
  error value.

## Model

| member | source | states |
|---|---|---|
| ViewMap.Keys | app/grid-save-state/toolbar-reducer.ts:32 | `Object.keys`: one key per entry, position by position, and exactly the keys the object holds |
| ViewMap.Lookup | app/restore-api-ref.tsx:234 | `m[k]` is defined exactly when `k` is an own key |
| ViewMap.Assign | app/grid-save-state/toolbar-reducer.ts:15-18 | after `{...m, [k]: v}` the keys are the old keys plus `k`; `k` maps to `v`; every other key maps to what it did; distinct keys stay distinct |
| ViewMap.Remove | app/grid-save-state/toolbar-reducer.ts:24-26 | the filter keeps exactly the keys other than `k`, each with its old value; distinct keys stay distinct |
| ViewMap.AssignFresh | app/grid-save-state/toolbar-reducer.ts:15-18 | assigning a key the object does not hold appends exactly one entry, last, and keeps the others in order |
| ViewMap.RemoveAbsent | app/grid-save-state/toolbar-reducer.ts:24-26 | filtering out a key that is not there gives back the same entries |
| ViewMap.RemoveAt | app/grid-save-state/toolbar-reducer.ts:24-26 | filtering out the key at position `i` gives `m[..i] + m[i+1..]`: only that entry goes, the rest keep order and values |
| ViewMap.LookupAt | app/grid-save-state/useGridViews.ts:105 | with distinct keys, looking up an entry's key finds that entry's value |
| ViewMap.LabelUnused | app/restore-api-ref.tsx:253-255 | `Object.values(views).every(v => v.label !== draft)` holds exactly when no entry has that label |
| ViewMap.IsLabelValid | app/restore-api-ref.tsx:248-256 | false for an empty draft; otherwise true exactly when no saved label equals the draft (exact, case-sensitive) |
| ToolbarReducer.Reducer | app/grid-save-state/toolbar-reducer.ts:5-82 | every transition keeps the keys of `views` distinct |
| ToolbarReducer.InitialStateIsEmpty | app/grid-save-state/toolbar-reducer.ts:84-90 | `INITIAL_STATE` has no views, an empty draft, no active id, and a closed menu with no anchor; its draft is not a valid label |
| ToolbarReducer.CreateViewFresh | app/grid-save-state/toolbar-reducer.ts:7-21 | with a fresh id `k`, `views` becomes old `views` plus `k ↦ {old draft, value}` appended last (length +1); active id becomes `k`; draft becomes ""; menu closes; anchor unchanged |
| ToolbarReducer.DeleteViewEntries | app/grid-save-state/toolbar-reducer.ts:23-46 | `deleteView(id)` removes exactly the entry keyed `id`, the rest in order; an absent id leaves `views` equal; draft, menu flag and anchor unchanged |
| ToolbarReducer.DeleteViewActive | app/grid-save-state/toolbar-reducer.ts:28-39 | the active id is kept when it is not `id`; otherwise it becomes the first key of the pre-deletion map, or null when that map was empty |
| ToolbarReducer.DeleteFirstActiveDangles | app/grid-save-state/toolbar-reducer.ts:31-38 | deleting the active view when it is first in order leaves the active id equal to the deleted key, which is no longer in `views` |
| ToolbarReducer.DeleteLaterActiveRepoints | app/grid-save-state/toolbar-reducer.ts:31-38 | deleting the active view at position > 0 re-points the active id to the first view, which remains |
| ToolbarReducer.DeleteActiveFirstOfTwo | app/grid-save-state/toolbar-reducer.ts:23-46 | two views with `id1` active: deleting `id1` leaves only `id2` and the active id at `id1` |
| ToolbarReducer.SetActiveViewFrame | app/grid-save-state/toolbar-reducer.ts:48-54 | `setActiveView(x)` stores `x` (null or a missing id included) and closes the menu; views, draft and anchor unchanged |
| ToolbarReducer.SetNewViewLabelFrame | app/grid-save-state/toolbar-reducer.ts:56-61 | `setNewViewLabel` changes only the draft |
| ToolbarReducer.ToggleLaw | app/grid-save-state/toolbar-reducer.ts:63-69 | `togglePopper(e)` negates the flag and anchors at `e`; twice gives the original flag with anchor `e` and nothing else changed |
| ToolbarReducer.ClosePopperIdempotent | app/grid-save-state/toolbar-reducer.ts:71-76 | `closePopper` clears only the flag and keeps the anchor; twice is the same as once |
| ToolbarReducer.UnrecognizedIsIdentity | app/grid-save-state/toolbar-reducer.ts:78-80 | an action whose tag no `case` matches (`UnknownTag`) reaches `default` and returns the state unchanged |
| ToolbarReducer.RunPreservesValid | app/grid-save-state/toolbar-reducer.ts:5-82 | every state reached by any sequence of dispatches has distinct view keys |
| ToolbarReducer.CreateViewsGrow | app/grid-save-state/toolbar-reducer.ts:7-21 | n `createView` dispatches with fresh distinct ids grow `views` by exactly n; old entries stay in place; the i-th new entry has the i-th id and snapshot |
| ToolbarReducer.CreateViewsLastActive | app/grid-save-state/toolbar-reducer.ts:11-13 | after a non-empty run of creations the last created id is active |
| GridToolbarReducer.Reducer | app/grid-save-state/grid-toolbar-reducer.ts:14-131 | every transition keeps the keys of `viewConfigs` distinct, provided a `hydrate` payload has distinct keys |
| GridToolbarReducer.InitialStateIsEmpty | app/grid-save-state/grid-toolbar-reducer.ts:143-178 | `INITIAL_STATE`: empty `viewConfigs`, `viewName` "", closed menu, null anchor, null `currentViewId` |
| GridToolbarReducer.HydrateReplaces | app/grid-save-state/grid-toolbar-reducer.ts:16-19 | `hydrate(p)` returns `p` whatever the prior state, so it is idempotent |
| GridToolbarReducer.CreateViewFresh | app/grid-save-state/grid-toolbar-reducer.ts:27-41 | with a fresh id `k`: appends `k ↦ {viewName, value}`; current id `k`; `viewName` ""; menu closed; anchor untouched |
| GridToolbarReducer.DeleteViewEntries | app/grid-save-state/grid-toolbar-reducer.ts:49-72 | filters out exactly key `id` and keeps the rest in order; `viewName`, menu flag and anchor unchanged |
| GridToolbarReducer.DeleteViewCurrent | app/grid-save-state/grid-toolbar-reducer.ts:54-65 | keeps the current id when it differs from `id`; otherwise takes the pre-filter first key, or null; re-selects the deleted `id` when it was first |
| GridToolbarReducer.SetActiveViewFrame | app/grid-save-state/grid-toolbar-reducer.ts:79-85 | `setActiveView(x)` sets `currentViewId = x` and closes the menu; nothing else changes |
| GridToolbarReducer.SetViewLabelFrame | app/grid-save-state/grid-toolbar-reducer.ts:91-96 | `setViewLabel` changes only `viewName` |
| GridToolbarReducer.ToggleLaw | app/grid-save-state/grid-toolbar-reducer.ts:103-109 | `togglePopupMenu(e)` negates the flag and anchors at `e`; twice restores the flag |
| GridToolbarReducer.ClosePopupMenuIdempotent | app/grid-save-state/grid-toolbar-reducer.ts:116-121 | `closePopupMenu` clears only the flag, keeps the anchor, and is idempotent |
| GridToolbarReducer.UnrecognizedIsIdentity | app/grid-save-state/grid-toolbar-reducer.ts:127-129 | an action whose tag no `case` matches (`UnknownTag`) reaches `default` and returns the state unchanged |
| ReducerCopies.ToGrid | app/grid-save-state/grid-state.ts:8-43 | `GridState` holds the same five fields as `DemoState` under the names `viewConfigs`, `viewName`, `currentViewId`, `menuAnchorElement` |
| ReducerCopies.ToDemo | app/grid-save-state/demo-state.ts:3-9 | renaming a grid store back and forth gives that store |
| ReducerCopies.RenamingRoundTrip | app/grid-save-state/demo-state.ts:3-9 | renaming a demo store back and forth gives that store; validity carries over in both directions |
| ReducerCopies.ToGridAction | app/grid-save-state/grid-actions.ts:8-49 | every `DemoActions` value (of tag unknown to the grid reducer when `Unrecognized`) has a counterpart in the declared `GridActions` union, so never the added `Hydrate` |
| ReducerCopies.ToDemoAction | app/grid-save-state/demo-actions.ts:3-9 | the added `Hydrate` has no demo counterpart; every member of the declared `GridActions` union (and every `Unrecognized` tag the toolbar reducer does not know either) has one, which renames back to it |
| ReducerCopies.DemoReducerIsToolbarReducer | app/restore-api-ref.tsx:43-120 | `demoReducer` equals `toolbarReducer` on every state, action and drawn id |
| ReducerCopies.GridReducerIsRenamedToolbarReducer | app/grid-save-state/grid-toolbar-reducer.ts:14-131 | `gridToolbarReducer` on a renamed state and action gives the renamed `toolbarReducer` result |
| ReducerCopies.GridActionsAsToolbarActions | app/grid-save-state/grid-toolbar-reducer.ts:21-129 | every non-`hydrate` grid action does what its toolbar counterpart does, read through the renaming |
| Popper.CanBeMenuOpened | app/grid-save-state/usePopper.ts:90 | `canBeMenuOpened` holds exactly when the flag is set and an anchor is present (same expression at usePopupMenu.ts:90, restore-api-ref.tsx:258) |
| Popper.PopperId | app/grid-save-state/usePopper.ts:93 | `popperId` is `"transition-popper"` exactly when the menu can be shown, otherwise undefined (same at usePopupMenu.ts:93, restore-api-ref.tsx:259) |
| Popper.AnchorClick | app/grid-save-state/usePopper.ts:62-65 | an anchor click dispatches exactly `togglePopper` with `event.currentTarget` |
| Popper.ClosePopperAction | app/grid-save-state/usePopper.ts:70-72 | `handleClosePopper` dispatches exactly `closePopper` |
| Popper.ListKeyDown | app/grid-save-state/usePopper.ts:80-87 | a key dispatches `closePopper` exactly when it is "Tab" or "Escape"; any other key dispatches nothing |
| Popper.KeyDownThenReduce | app/grid-save-state/usePopper.ts:80-90 | after the toolbar reducer runs: Tab/Escape leaves the menu not showable with the anchor kept; any other key leaves the state unchanged |
| Popper.TwoClicksFromClosed | app/grid-save-state/usePopper.ts:62-64 | from a closed menu, one click on `e` makes the menu showable with popper id set; a second click on `e` makes it not showable, anchor still `e`, no popper id |
| PopupMenu.HandleClick | app/grid-save-state/usePopupMenu.ts:62-65 | an anchor click dispatches exactly `togglePopupMenu` with `event.currentTarget` |
| PopupMenu.HandleClose | app/grid-save-state/usePopupMenu.ts:70-72 | `handleClose` dispatches exactly `closePopupMenu` |
| PopupMenu.HandleListKeyDown | app/grid-save-state/usePopupMenu.ts:80-87 | dispatches `closePopupMenu` exactly for "Tab" or "Escape"; any other key dispatches nothing |
| PopupMenu.KeyDownThenReduce | app/grid-save-state/usePopupMenu.ts:80-93 | after the grid reducer runs: Tab/Escape makes `canBeMenuOpened` false and `popperId` undefined; other keys change nothing |
| PopupMenu.ClickThenReduce | app/grid-save-state/usePopupMenu.ts:62-64 | after the grid reducer runs, a click makes the menu showable exactly when it was closed, and anchors it at the clicked element |
| RestoreApiRef.DemoReducer | app/restore-api-ref.tsx:43-120 | every transition of `demoReducer` keeps view keys distinct |
| RestoreApiRef.DemoInitialState | app/restore-api-ref.tsx:122-128 | `DEMO_INITIAL_STATE` is the same empty store as `INITIAL_STATE` of toolbar-reducer.ts |
| RestoreApiRef.IsNewViewLabelValid | app/restore-api-ref.tsx:248-256 | false when the draft is empty whatever the views; otherwise true exactly when every saved label differs from the draft |
| RestoreApiRef.LabelInvalidAfterCreate | app/restore-api-ref.tsx:45-59 | after `createView` the label is invalid (draft cleared); setting the draft back to the label just saved is invalid too |
| RestoreApiRef.CustomToolbar.constructor | app/restore-api-ref.tsx:214 | the cell starts at `DEMO_INITIAL_STATE`, with no effects yet |
| RestoreApiRef.CustomToolbar.Dispatch | app/restore-api-ref.tsx:214 | a dispatch runs `demoReducer` on the cell and is recorded |
| RestoreApiRef.CustomToolbar.CreateNewView | app/restore-api-ref.tsx:216-221 | exactly one `createView` dispatch carrying the exported snapshot; with a fresh id the view is appended under it with the draft label and becomes active |
| RestoreApiRef.CustomToolbar.HandleNewViewLabelChange | app/restore-api-ref.tsx:223-227 | dispatches `setNewViewLabel` with the typed text; only the draft changes |
| RestoreApiRef.CustomToolbar.HandleDeleteView | app/restore-api-ref.tsx:229-231 | dispatches exactly `deleteView(viewId)` |
| RestoreApiRef.CustomToolbar.HandleSetActiveView | app/restore-api-ref.tsx:233-236 | a present id restores its snapshot, then dispatches `setActiveView`, in that order; the id is then active and saved; an absent id throws with state and effects unchanged |
| RestoreApiRef.CustomToolbar.HandlePopperAnchorClick | app/restore-api-ref.tsx:238-242 | dispatches `togglePopper(currentTarget)`: flag negated, anchor set |
| RestoreApiRef.CustomToolbar.HandleClosePopper | app/restore-api-ref.tsx:244-246 | dispatches `closePopper`: only the flag clears |
| RestoreApiRef.CustomToolbar.HandleListKeyDown | app/restore-api-ref.tsx:268-275 | Tab/Escape dispatches `closePopper`; any other key changes neither state nor effects |
| GridViews.WithEntry | app/grid-save-state/useGridViews.ts:62-67 | `getInitialState(g)` inserts `INITIAL_STATE` under `g` only when absent, keeps an existing entry, and never alters another grid id's entry |
| GridViews.WithEntryIdempotent | app/grid-save-state/useGridViews.ts:62-67 | calling `getInitialState(g)` twice leaves the cache as calling it once |
| GridViews.GridStateCache.constructor | app/grid-save-state/useGridViews.ts:42 | the page-wide `gridStates` map starts empty |
| GridViews.GridStateCache.GetInitialState | app/grid-save-state/useGridViews.ts:62-67 | the cache becomes `WithEntry(old, g)`; the result is its entry for `g`: the old one if there was one, else `INITIAL_STATE` of grid-toolbar-reducer.ts (intended wiring: the source inserts toolbar-reducer.ts's; see Findings) |
| GridViews.GridStateCache.Set | app/grid-save-state/useGridViews.ts:74 | `gridStates.set(g, s)` replaces only the entry for `g` |
| GridViews.IsNewViewLabelValid | app/grid-save-state/useGridViews.ts:116-119 | false when `viewName` has length 0; otherwise true exactly when no `viewConfigs` entry has `label == viewName` |
| GridViews.ViewsHook.constructor | app/grid-save-state/useGridViews.ts:70 | mounting initialises the cell from `getInitialState(gridId)` and leaves the cache as `WithEntry` of it (intended wiring; see Findings); `gridId` is always supplied by the caller, its default `"default"` at useGridViews.ts:57 is not modelled |
| GridViews.ViewsHook.SyncState | app/grid-save-state/useGridViews.ts:73-75 | writes the state under its own grid id only; every other grid id's entry and presence are unchanged |
| GridViews.ViewsHook.Dispatch | app/grid-save-state/useGridViews.ts:70 | a dispatch runs `gridToolbarReducer` on the cell and is recorded (intended wiring: the source passes `toolbarReducer`; see Findings) |
| GridViews.ViewsHook.CreateNewView | app/grid-save-state/useGridViews.ts:82-87 | exactly one `createView` with the exported snapshot; with a fresh id it is appended with the current name and becomes current |
| GridViews.ViewsHook.HandleDeleteView | app/grid-save-state/useGridViews.ts:94-96 | dispatches exactly `deleteView(viewId)` |
| GridViews.ViewsHook.HandleSetActiveView | app/grid-save-state/useGridViews.ts:104-107 | a present id restores `viewConfigs[id].value`, then dispatches `setActiveView`; an absent id throws before either, nothing changed |
| GridViews.AsWrittenAction | app/grid-save-state/useGridViews.ts:70 | `toolbarReducer` recognises only the `createView`, `deleteView` and `setActiveView` tags of a `GridActions` object |
| GridViews.AsWrittenIgnoresLabelAndMenu | app/grid-save-state/useGridViews.ts:70 | under the wiring as written, `setViewLabel`, `togglePopupMenu`, `closePopupMenu` and `hydrate` leave the store unchanged |
| GridViews.AsWrittenTypeAndClick | app/grid-save-state/GridToolBar.tsx:46-48 | as written, typing "A" and clicking the anchor from the initial store leaves the draft "", so no label is valid, and the menu not showable |
| GridViews.IntendedTypeAndClick | app/grid-save-state/grid-toolbar-reducer.ts:91-109 | with the grid toolbar reducer the same run sets the name to "A", a valid label, and makes the menu showable |

## Findings

| source | as written | input that shows it | evidently intended | confidence | as-written member | corrected member |
|---|---|---|---|---|---|---|
| app/grid-save-state/useGridViews.ts:70 | `useReducer(toolbarReducer, getInitialState())`, seeded with the `INITIAL_STATE` of toolbar-reducer.ts (imported at useGridViews.ts:3). That reducer keeps `views`/`newViewLabel` and knows only the `DemoActions` tags. The hook and `GridToolBar` dispatch `GridActions` and read `viewConfigs`/`viewName` (useGridViews.ts:105,117-118; GridToolBar.tsx:47). | From the initial store, dispatch `{type: "setViewLabel", label: "A"}` and then `{type: "togglePopupMenu", element: e}`. The draft stays "" and the menu stays closed. | The hook runs `gridToolbarReducer` from the `INITIAL_STATE` of grid-toolbar-reducer.ts, whose `setViewLabel` and `togglePopupMenu` take effect. | not executed | GridViews.AsWrittenTypeAndClick | GridViews.IntendedTypeAndClick |

The controller class `GridViews.ViewsHook` uses the intended `gridToolbarReducer`.
`GridViews.AsWrittenAction` and `GridViews.AsWrittenIgnoresLabelAndMenu` describe the
wiring as written. In the code as written, `state.viewConfigs` and `state.viewName` are
also undefined on the store that `toolbarReducer` keeps. So `isNewViewLabelValid` would
throw at `state.viewName.length` on the first render, and the type checker rejects the
file. The model does not reproduce that crash. It models the hook's helpers over
`GridState`.

## Left out

- Rendering is not modelled: the JSX of `restore-api-ref.tsx:277-353`, `GridToolBar.tsx`,
  `NewGridViewButton.tsx`, `NewViewListButton.tsx`, `PopupMenuItem.tsx`, `ViewListItem.tsx`,
  `page.tsx`, dialogs, Popper/Fade and ARIA attributes. It is presentation only.
- `event.preventDefault()` on Tab and `event.stopPropagation()` on the anchor click are
  not modelled. They act on the browser event, not on the store.
- `app/save-restore-storage-grid.tsx` and `app/save-restore-grid.tsx` are not part of
  this model. They hold `localStorage` and `beforeunload` persistence of the grid's own
  exported state, a density menu and a remount counter. Nothing in them dispatches to
  the view store, and nothing dispatches `hydrate`.
- Id generation (`Math.random().toString()`, `crypto.randomUUID()`) is not modelled.
  The drawn id is a parameter, and freshness is assumed where a lemma needs it.
  Randomness and uniqueness cannot be stated in this model.
- The contents of `GridInitialState` and the behaviour of `exportState`/`restoreState`
  are not modelled. They belong to the external grid widget. The snapshot is opaque, an
  export is a method parameter, and a restore is a recorded effect.
- A `restoreState` that throws is not modelled, and neither is an unbound
  `apiRef.current`. Both are failures inside the external widget.
- React mechanics are not modelled: `useMemo`/`useCallback` memoisation, when effects
  run, re-rendering, and handlers that see the state of the render that created them.
  `SyncState` is a method called whenever the hook's environment runs the effect.
  `console.log` is not modelled.
- `Id`: the model enumerates keys in insertion order. JavaScript enumerates
  integer-like keys first, in ascending numeric order. Ids from `Math.random()` have
  that form only for the value 0 ("0"), and UUIDs never do. This ordering is not
  modelled.
- RestoreApiRef.CustomToolbar.HandleSetActiveView: every id that is not an own key of
  `views` throws. An inherited property name such as "toString" would instead pass
  `undefined` to `restoreState` and then dispatch. This is not modelled.
- The model widens `GridActions` with `Hydrate(payload)`, a variant that grid-actions.ts does
  not declare, so that the `hydrate` case at grid-toolbar-reducer.ts:16-19 is covered. The
  fact that this case does not type-check is not modelled.
- ReducerCopies.ToGridAction, ReducerCopies.ToDemoAction and GridViews.AsWrittenAction are
  not defined on an object of unknown tag that the other reducer does have a case for.
  Examples are `{type: "setViewLabel"}` reaching `toolbarReducer`'s renamed side, or
  `{type: "togglePopper"}` reaching it from the grid side. Such an object carries fields the
  model does not know, and neither declared union has it.
- GridViews.ViewsHook.constructor: the hook's default `gridId = "default"`
  (useGridViews.ts:57) is not modelled; the caller always passes the grid id.
- GridViews.ViewsHook.HandleSetActiveView: the same simplification for inherited
  property names of `viewConfigs`.
