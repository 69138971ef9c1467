/** The action records shared by the screenshot analysis and the
    test-case generator (`DetectedAction` and `AnalysisResult`). */
module Actions {
  import opened Wrappers

  datatype ActionKind = Click | Input | Navigation | Scroll | Hover | Keypress

  /** One detected user action; the optional fields are the ones a source
      object may leave out. */
  datatype DetectedAction = DetectedAction(
    kind: ActionKind,
    timestamp: int,
    x: Option<int>,
    y: Option<int>,
    element: Option<string>,
    value: Option<string>,
    keyCode: Option<int>)

  /** The actions, their duration in seconds and the frame size. */
  datatype AnalysisResult = AnalysisResult(actions: seq<DetectedAction>, duration: int, width: int, height: int)

  /** Timestamps strictly increase along the list. */
  predicate Increasing(acts: seq<DetectedAction>) {
    forall i, j :: 0 <= i < j < |acts| ==> acts[i].timestamp < acts[j].timestamp
  }
}
