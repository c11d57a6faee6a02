/** What the agents keep between tool calls: the parameters of the current function call, and the
    history list every tool call reports to. */
module AgentLog {
  import opened Outcome
  import opened Store

  /** An attribute of an agent object: never assigned, assigned `None`, or holding a value. */
  datatype Attr<T> = Unset | PyNone | Set(value: T)

  /** One history record `[function_call.name, params, response]`. */
  datatype Entry = Entry(call: string, params: map<string, string>, response: Value)

  /** `history.append([caller, params, response])`, where `caller` is the name of the function call
      of the agent's last model response when it can be read. The attribute lookups fail in the
      order Python makes them: the list first, then its `append`, then the response's call. */
  function AppendLog(history: Attr<seq<Entry>>, caller: Option<string>, params: map<string, string>, response: Value): (r: Result<seq<Entry>>)
    ensures r.Ok? <==> history.Set? && caller.Some?
    ensures r.Ok? ==> |r.value| == |history.value| + 1 && r.value[..|history.value|] == history.value
    ensures r.Ok? ==> r.value[|history.value|] == Entry(caller.value, params, response)
    ensures r.Err? ==> r.error.AttributeError?
  {
    match history
    case Unset => Err(AttributeError("api_requests_and_responses"))
    case PyNone => Err(AttributeError("append"))
    case Set(h) =>
      if caller.None? then Err(AttributeError("function_call"))
      else Ok(h + [Entry(caller.value, params, response)])
  }
}
