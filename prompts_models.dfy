/** The front end's prompt-result DTO and its UI adapters (`prompts.models.ts`). */
module PromptsModels {
  import opened Wrappers
  import opened Status

  datatype GraphConfig = GraphConfig(x: string, y: string)

  /** `DataRequestResultDto` as the prompt views see it; `resultTable` is not used here. */
  datatype ResultDto = ResultDto(
    requestId: int, status: RequestStatus, sqlScript: Option<string>, resultText: Option<string>,
    graphConfig: Option<GraphConfig>)

  /** `UiGraphType` */
  datatype UiGraphType = Linear | Bar

  datatype UiGraphSpec = UiGraphSpec(xColumn: string, yColumnName: string, graphType: UiGraphType)

  /**
    `toUiGraphSpec`: the graph axes with the given chart type (LINEAR by
    default), or nothing without a graph configuration.
   */
  function ToUiGraphSpec(res: ResultDto, fallbackType: UiGraphType := Linear): (r: Option<UiGraphSpec>)
    ensures r.Some? <==> res.graphConfig.Some?
    ensures r.Some? ==>
      r.value.xColumn == res.graphConfig.value.x && r.value.yColumnName == res.graphConfig.value.y
      && r.value.graphType == fallbackType
  {
    if res.graphConfig.None? then None
    else Some(UiGraphSpec(res.graphConfig.value.x, res.graphConfig.value.y, fallbackType))
  }

  /**
    `isTerminalStatus`, as written: FAILED, PENDING and SUCCEEDED all count,
    so every known status is terminal and only a missing one is not.
   */
  predicate IsTerminalStatus(s: Option<RequestStatus>)
  {
    s == Some(Failed) || s == Some(Pending) || s == Some(Succeeded)
  }

  /** A status is terminal exactly when it is present, PENDING included. */
  lemma TerminalIffPresent(s: Option<RequestStatus>)
    ensures IsTerminalStatus(s) <==> s.Some?
    ensures IsTerminalStatus(Some(Pending)) && !IsTerminalStatus(None)
  {
    if s.Some? {
      assert s.value == Failed || s.value == Pending || s.value == Succeeded;
    }
  }
}
