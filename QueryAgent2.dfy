/** The second OpenAI agent class. Its module imports neither `sqlite3` nor `re`, so each of its
    four tools stops at its first line, `sqlite3.connect(...)`, before reading any parameter. */
module QueryAgent2 {
  import opened Outcome
  import opened Store
  import opened AgentLog

  /** What every tool of this class raises. */
  const NoSqlite := NameError("sqlite3")

  class Agent {
    var previousId: Option<string>
    var sqlResponse: Option<Value>
    /** The only history list the constructor creates; the tools report to another one. */
    var sqlRequestsAndResponses: seq<Entry>
    var params: map<string, string>

    /** `__init__`: no previous response, no answer, an empty history and no parameters. */
    constructor ()
      ensures previousId == None && sqlResponse == None
      ensures sqlRequestsAndResponses == [] && params == map[]
    {
      previousId := None;
      sqlResponse := None;
      sqlRequestsAndResponses := [];
      params := map[];
    }

    /** `get_schema`: raises before the schema is read. */
    method GetSchema(files: Files) returns (raised: Error)
      ensures raised == NoSqlite
    {
      raised := NoSqlite;
    }

    /** `get_table`: raises before the `table_id` check, whatever the parameters hold. */
    method GetTable(files: Files) returns (raised: Error)
      ensures raised == NoSqlite
    {
      raised := NoSqlite;
    }

    /** `sql_query`: the connection is opened outside the `try`, so the error is not swallowed. */
    method SqlQuery(files: Files, exec: (Database, string) -> QueryResult) returns (raised: Error)
      ensures raised == NoSqlite
    {
      raised := NoSqlite;
    }

    /** `template_response`: raises before `final_response` is read, so `api_response` is never set. */
    method TemplateResponse(files: Files) returns (raised: Error)
      ensures raised == NoSqlite
    {
      raised := NoSqlite;
    }
  }
}
