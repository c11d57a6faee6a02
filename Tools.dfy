/** The agent tools of `tools.py`: functions that take the agent as `self`, read their arguments
    from `self.params`, leave their answer in `self.api_response` or `self.sql_response`, and report
    to the history list. */
module Tools {
  import opened Outcome
  import opened Store
  import opened Hygiene
  import opened Bridge
  import opened AgentLog
  import Config

  /** The attributes of the agent object the tools read and write. */
  class Agent {
    var params: map<string, string>
    var apiResponse: Attr<Value>
    var sqlResponse: Attr<Value>
    var history: Attr<seq<Entry>>
    /** `self.response.function_call.name`, when the last model response carries a function call. */
    var caller: Option<string>

    constructor (params: map<string, string>, apiResponse: Attr<Value>, sqlResponse: Attr<Value>,
                 history: Attr<seq<Entry>>, caller: Option<string>)
      ensures this.params == params && this.apiResponse == apiResponse && this.sqlResponse == sqlResponse
      ensures this.history == history && this.caller == caller
    {
      this.params := params;
      this.apiResponse := apiResponse;
      this.sqlResponse := sqlResponse;
      this.history := history;
      this.caller := caller;
    }

    /** `get_schema(self)`: the cleaned schema of the anonymised database goes to `sql_response`,
        but the check that follows tests `api_response`, so whether the call raises depends only on
        what an earlier tool left there. */
    method GetSchema(files: Files) returns (raised: Option<Error>)
      modifies this
      ensures var text := SchemaText(Open(files, Config.AnonDbPath).schema);
        sqlResponse == (if text.Some? then Set(Str(text.value)) else old(sqlResponse))
      ensures raised == (match apiResponse
                         case Unset => Some(AttributeError("api_response"))
                         case PyNone => Some(ValueError("Could not get the schema from the SQL connection."))
                         case Set(_) => None)
      ensures params == old(params) && apiResponse == old(apiResponse) && history == old(history) && caller == old(caller)
    {
      var db := Open(files, Config.AnonDbPath);
      var digest, joined := DigestSchema(db.schema);
      if joined.Some? {
        sqlResponse := Set(Str(joined.value));
      }
      raised := match apiResponse
        case Unset => Some(AttributeError("api_response"))
        case PyNone => Some(ValueError("Could not get the schema from the SQL connection."))
        case Set(_) => None;
    }

    /** `get_table(self)`: without a `table_id` parameter the call raises before touching anything;
        otherwise the whole table's rows, as Python prints them, replace `api_response`. */
    method GetTable(files: Files) returns (raised: Option<Error>)
      modifies this
      ensures "table_id" !in params ==>
        raised == Some(ValueError("Missing required parameter table_id.")) && apiResponse == old(apiResponse)
      ensures "table_id" in params ==>
        match SelectAll(Open(files, Config.AnonDbPath), params["table_id"])
        case Err(e) => raised == Some(e) && apiResponse == old(apiResponse)
        case Ok(rows) => raised == None && apiResponse == Set(ReprOf(Rows(rows)))
      ensures params == old(params) && sqlResponse == old(sqlResponse) && history == old(history) && caller == old(caller)
    {
      if "table_id" !in params {
        return Some(ValueError("Missing required parameter table_id."));
      }
      var fetched := SelectAll(Open(files, Config.AnonDbPath), params["table_id"]);
      if fetched.Err? {
        return Some(fetched.error);
      }
      apiResponse := Set(ReprOf(Rows(fetched.value)));
      raised := None;
    }

    /** `sql_query(self)`: the cleaned query runs on the anonymised database and every exception is
        swallowed. The fetched rows are stored first; the JSON of their printed form replaces them
        only once the history append has succeeded. The retry text of the `except` branch is built
        but never stored, so a failed query leaves the agent as it was. */
    method SqlQuery(files: Files, exec: (Database, string) -> QueryResult)
      modifies this
      ensures "query" !in old(params) ==> apiResponse == old(apiResponse) && history == old(history)
      ensures "query" in old(params) ==>
        var res := exec(Open(files, Config.AnonDbPath), CleanQuery(old(params)["query"]));
        && (res.Raised? ==> apiResponse == old(apiResponse) && history == old(history))
        && (res.Fetched? ==>
              var logged := JsonOf(ReprOf(DictRows(res.names, res.rows)));
              match AppendLog(old(history), old(caller), old(params), logged)
              case Ok(h) => history == Set(h) && apiResponse == Set(logged)
              case Err(_) => history == old(history) && apiResponse == Set(RowObjects(res.names, res.rows)))
      ensures params == old(params) && sqlResponse == old(sqlResponse) && caller == old(caller)
    {
      if "query" !in params {
        return;
      }
      var cleaned := CleanQuery(params["query"]);
      var res := exec(Open(files, Config.AnonDbPath), cleaned);
      if res.Raised? {
        return;
      }
      apiResponse := Set(RowObjects(res.names, res.rows));
      var logged := JsonOf(ReprOf(DictRows(res.names, res.rows)));
      var appended := AppendLog(history, caller, params, logged);
      if appended.Ok? {
        history := Set(appended.value);
        apiResponse := Set(logged);
      }
    }

    /** `template_response(self)`: the encoded answer is stored in `api_response` as it came, the
        pseudonyms are resolved against the key tables of the private database, the encoded answer
        goes to the history, and the resolved answer is returned. */
    method TemplateResponse(files: Files) returns (r: Result<string>)
      modifies this
      ensures "final_response" !in old(params) ==>
        r == Err(KeyError("final_response")) && apiResponse == old(apiResponse) && history == old(history)
      ensures "final_response" in old(params) ==>
        var text := old(params)["final_response"];
        var resolved := ResolveSpec(Open(files, Config.PrivDbPath), PrivateKeys, text);
        && apiResponse == Set(Str(text))
        && (resolved.Err? ==> r == resolved && history == old(history))
        && (resolved.Ok? ==>
              match AppendLog(old(history), old(caller), old(params), Str(text))
              case Ok(h) => r == resolved && history == Set(h)
              case Err(e) => r == Err(e) && history == old(history))
      ensures params == old(params) && sqlResponse == old(sqlResponse) && caller == old(caller)
    {
      if "final_response" !in params {
        return Err(KeyError("final_response"));
      }
      var text := params["final_response"];
      apiResponse := Set(Str(text));
      var resolved := Resolve(Open(files, Config.PrivDbPath), PrivateKeys, text);
      if resolved.Err? {
        return resolved;
      }
      var appended := AppendLog(history, caller, params, Str(text));
      if appended.Err? {
        return Err(appended.error);
      }
      history := Set(appended.value);
      r := resolved;
    }
  }
}
