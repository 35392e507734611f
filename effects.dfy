/**
 * What a controller handler does outside its own code, in the order it does it:
 * applying a snapshot to the grid widget (`apiRef.current.restoreState`) or
 * dispatching an action to the `useReducer` state cell.
 */
module Effects {

  datatype Effect<S, A> = RestoreState(snapshot: S) | Dispatched(action: A)
}
