/** The debugger's phase register (`RunnerState.State`). */
module RunnerStates {
  datatype RunnerState = Stopped | Running | SyncState | WaitingForExternalEvent | JsDebug
}
