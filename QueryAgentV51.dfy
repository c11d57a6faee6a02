/** The OpenAI agent's dispatch switchboard: the name of the function the model called selects one
    of the stand-alone tools, and the tool's return value is passed back unchanged. */
module QueryAgentV51 {
  import opened Outcome
  import opened Store
  import opened Bridge
  import StreamlitTools
  import Config

  /** The error an unknown tool name ends in: no branch binds `sql_response`, and returning it raises. */
  const Unbound := UnboundLocalError("sql_response")

  /** Python's f-string of the optional argument, as the table-info tool splices it into its PRAGMA. */
  function ArgText(arg: Option<string>): string {
    if arg.Some? then arg.value else "None"
  }

  /** `dispatch(name, arg)`: the three query tools are pointed at the anonymised database, and the
      argument goes to the selected tool as its table name, its query or its encoded answer. */
  function Dispatch(files: Files, exec: (Database, string) -> QueryResult, name: string, arg: Option<string>): (r: Result<Value>)
    ensures name == "get_schema" ==>
      r == (match StreamlitTools.SchemaResult(Open(files, Config.AnonDbPath))
            case Ok(s) => Ok(Str(s))
            case Err(e) => Err(e))
    ensures name == "get_table_info" ==> r == Ok(Str(StreamlitTools.GetTableInfo(files, Config.AnonDbPath, ArgText(arg))))
    ensures name == "sql_query" ==> r == Ok(StreamlitTools.SqlQuery(files, exec, Config.AnonDbPath, arg))
    ensures name == "template_response" ==>
      r == (match StreamlitTools.TemplateResult(files, arg)
            case Ok(s) => Ok(Str(s))
            case Err(e) => Err(e))
    ensures name !in {"get_schema", "get_table_info", "sql_query", "template_response"} ==> r == Err(Unbound)
  {
    if name == "get_schema" then
      var s :- StreamlitTools.SchemaResult(Open(files, Config.AnonDbPath));
      Ok(Str(s))
    else if name == "get_table_info" then
      Ok(Str(StreamlitTools.GetTableInfo(files, Config.AnonDbPath, ArgText(arg))))
    else if name == "sql_query" then
      Ok(StreamlitTools.SqlQuery(files, exec, Config.AnonDbPath, arg))
    else if name == "template_response" then
      var s :- StreamlitTools.TemplateResult(files, arg);
      Ok(Str(s))
    else Err(Unbound)
  }

  /** Every tool but `template_response` reads the anonymised database and nothing else: two sets
      of files that agree on it give the same answer. */
  lemma DispatchReadsAnonymousOnly(files1: Files, files2: Files, exec: (Database, string) -> QueryResult, name: string, arg: Option<string>)
    requires name != "template_response"
    requires Open(files1, Config.AnonDbPath) == Open(files2, Config.AnonDbPath)
    ensures Dispatch(files1, exec, name, arg) == Dispatch(files2, exec, name, arg)
  {
  }

  /** `template_response` reads only the two key tables of the private database; the anonymised
      database may be anything at all. */
  lemma DispatchTemplateReadsPrivateKeysOnly(files1: Files, files2: Files, exec: (Database, string) -> QueryResult, arg: Option<string>)
    requires SameKeyTables(Open(files1, StreamlitTools.PrivatePath), Open(files2, StreamlitTools.PrivatePath), PrivateKeys)
    ensures Dispatch(files1, exec, "template_response", arg) == Dispatch(files2, exec, "template_response", arg)
  {
    if arg.Some? {
      ResolveReadsKeyTablesOnly(Open(files1, StreamlitTools.PrivatePath), Open(files2, StreamlitTools.PrivatePath), PrivateKeys, arg.value);
    }
  }

  /** Only `get_schema`, `template_response` and an unknown name can fail; the table-info tool
      always returns a text, and the query tool the retry text, JSON, or the fetched rows as they
      came when one of them holds a BLOB. */
  lemma DispatchFailures(files: Files, exec: (Database, string) -> QueryResult, name: string, arg: Option<string>)
    ensures Dispatch(files, exec, name, arg).Err? ==> name !in {"get_table_info", "sql_query"}
    ensures name == "get_table_info" ==> Dispatch(files, exec, name, arg).value.Str?
    ensures name == "sql_query" ==>
      var v := Dispatch(files, exec, name, arg).value;
      && (v.Str? || v.JsonOf? || v.RowObjects?)
      && (v.RowObjects? <==>
            arg.Some? && exec(Open(files, Config.AnonDbPath), arg.value).Fetched?
            && StreamlitTools.HoldsBlob(exec(Open(files, Config.AnonDbPath), arg.value).rows))
  {
  }
}
