/** The Gemini agent: one object holding the connection to the anonymised database, the last model
    response, the parameters of its function call, the tool's answer and the call history. */
module QueryAgent {
  import opened Outcome
  import opened Store
  import opened Hygiene
  import opened Bridge
  import opened AgentLog

  /** A function call of a model response: its name and its arguments in the order they came. */
  datatype Call = Call(name: string, args: Option<seq<(string, string)>>)

  /** The first part of a model response's first candidate, and the function call it may carry. */
  datatype Part = Part(call: Option<Call>)

  /** `self.response.function_call.name`. */
  function CallName(response: Option<Part>): (r: Result<string>)
    ensures r.Ok? <==> response.Some? && response.value.call.Some?
    ensures r.Ok? ==> r.value == response.value.call.value.name
    ensures r.Err? ==> r.error.AttributeError?
  {
    match response
    case None => Err(AttributeError("function_call"))
    case Some(p) =>
      match p.call
      case None => Err(AttributeError("name"))
      case Some(c) => Ok(c.name)
  }

  /** The parameters after `params[key] = value` for each argument, in order. */
  function Absorb(params: map<string, string>, args: seq<(string, string)>): (r: map<string, string>)
    decreases |args|
  {
    if args == [] then params else Absorb(params[args[0].0 := args[0].1], args[1..])
  }

  /** One more argument is one more map update. */
  lemma {:induction false} AbsorbSnoc(params: map<string, string>, args: seq<(string, string)>, x: (string, string))
    ensures Absorb(params, args + [x]) == Absorb(params, args)[x.0 := x.1]
    decreases |args|
  {
    if args == [] {
      assert args + [x] == [x];
      assert [x][1..] == [];
    } else {
      assert (args + [x])[1..] == args[1..] + [x];
      AbsorbSnoc(params[args[0].0 := args[0].1], args[1..], x);
    }
  }

  /** Absorbing one more argument of a list. */
  lemma AbsorbStep(params: map<string, string>, args: seq<(string, string)>, i: nat)
    requires i < |args|
    ensures Absorb(params, args[..i + 1]) == Absorb(params, args[..i])[args[i].0 := args[i].1]
  {
    AbsorbSnoc(params, args[..i], args[i]);
    assert args[..i + 1] == args[..i] + [args[i]];
  }

  /** Where the last argument with a given key sits. */
  function LastWith(args: seq<(string, string)>, key: string): (r: Option<nat>)
    ensures r.None? <==> forall i :: 0 <= i < |args| ==> args[i].0 != key
    ensures r.Some? ==> r.value < |args| && args[r.value].0 == key
    ensures r.Some? ==> forall i :: r.value < i < |args| ==> args[i].0 != key
    decreases |args|
  {
    if args == [] then None
    else if args[|args| - 1].0 == key then Some(|args| - 1)
    else LastWith(args[..|args| - 1], key)
  }

  /** The stored parameters keep every old key, gain every argument's key, and each key holds the
      value of its last argument, or its old value when no argument names it. */
  lemma {:induction false} AbsorbKeeps(params: map<string, string>, args: seq<(string, string)>, key: string)
    ensures key in Absorb(params, args) <==> key in params || LastWith(args, key).Some?
    ensures LastWith(args, key).Some? ==> Absorb(params, args)[key] == args[LastWith(args, key).value].1
    ensures LastWith(args, key).None? && key in params ==> Absorb(params, args)[key] == params[key]
    decreases |args|
  {
    if args != [] {
      var front := args[..|args| - 1];
      var x := args[|args| - 1];
      assert args == front + [x];
      AbsorbSnoc(params, front, x);
      AbsorbKeeps(params, front, key);
      if x.0 != key {
        assert LastWith(args, key) == LastWith(front, key);
      }
    }
  }

  class Agent {
    var params: map<string, string>
    var history: seq<Entry>
    /** The last raw model response: none yet, or one whose first part may be missing. */
    var raw: Option<Option<Part>>
    var response: Option<Part>
    var apiResponse: Option<Value>
    /** The database the agent's own connection is open on. */
    var db: Database

    /** `__init__`: empty parameters and history, no response and no answer yet. */
    constructor (db: Database)
      ensures params == map[] && history == [] && raw == None && response == None && apiResponse == None
      ensures this.db == db
    {
      params := map[];
      history := [];
      raw := None;
      response := None;
      apiResponse := None;
      this.db := db;
    }

    /** `set_params`: the first part of the raw response becomes the current response, and the
        arguments of its function call are written into the parameters one by one. */
    method SetParams() returns (raised: Option<Error>)
      modifies this
      ensures old(raw).None? ==> raised == Some(AttributeError("candidates")) && response == old(response) && params == old(params)
      ensures old(raw).Some? ==> response == old(raw).value
      ensures old(raw) == Some(None) ==> raised == Some(ValueError("Response object is None. Cannot set parameters.")) && params == old(params)
      ensures old(raw).Some? && old(raw).value.Some? ==>
        var call := old(raw).value.value.call;
        && (call.None? ==> raised == None && params == old(params))
        && (call.Some? && call.value.args.None? ==> raised == Some(AttributeError("items")) && params == old(params))
        && (call.Some? && call.value.args.Some? ==> raised == None && params == Absorb(old(params), call.value.args.value))
      ensures history == old(history) && raw == old(raw) && apiResponse == old(apiResponse) && db == old(db)
    {
      if raw.None? {
        return Some(AttributeError("candidates"));
      }
      response := raw.value;
      if response.None? {
        return Some(ValueError("Response object is None. Cannot set parameters."));
      }
      var call := response.value.call;
      if call.None? {
        return None;
      }
      if call.value.args.None? {
        return Some(AttributeError("items"));
      }
      var args := call.value.args.value;
      var i := 0;
      while i < |args|
        invariant 0 <= i <= |args|
        invariant params == Absorb(old(params), args[..i])
        invariant response == old(raw).value
        invariant history == old(history) && raw == old(raw) && apiResponse == old(apiResponse) && db == old(db)
      {
        AbsorbStep(old(params), args, i);
        params := params[args[i].0 := args[i].1];
        i := i + 1;
      }
      assert args[..i] == args;
      raised := None;
    }

    /** `get_schema`: each cleaned entry re-assigns `api_response`; with no truthy entry it keeps
        whatever an earlier tool left there, and only a `None` there raises. The answer is then
        logged. */
    method GetSchema() returns (raised: Option<Error>)
      modifies this
      ensures var text := SchemaText(old(db).schema);
        apiResponse == (if text.Some? then Some(Str(text.value)) else old(apiResponse))
      ensures apiResponse.None? ==> raised == Some(ValueError("Could not get the schema from the SQL connection.")) && history == old(history)
      ensures apiResponse.Some? ==>
        match CallName(old(response))
        case Err(e) => raised == Some(e) && history == old(history)
        case Ok(name) => raised == None && history == old(history) + [Entry(name, old(params), apiResponse.value)]
      ensures params == old(params) && raw == old(raw) && response == old(response) && db == old(db)
    {
      var digest, joined := DigestSchema(db.schema);
      if joined.Some? {
        apiResponse := Some(Str(joined.value));
      }
      if apiResponse.None? {
        return Some(ValueError("Could not get the schema from the SQL connection."));
      }
      var name := CallName(response);
      if name.Err? {
        return Some(name.error);
      }
      history := history + [Entry(name.value, params, apiResponse.value)];
      raised := None;
    }

    /** `get_table`: without a `table_id` the call raises at once; otherwise the printed rows are
        stored, and the call then fails on the misspelt `columns` before anything is logged. */
    method GetTable() returns (raised: Error)
      modifies this
      ensures "table_id" !in params ==> raised == ValueError("Missing required parameter table_id.") && apiResponse == old(apiResponse)
      ensures "table_id" in params ==>
        match SelectAll(old(db), params["table_id"])
        case Err(e) => raised == e && apiResponse == old(apiResponse)
        case Ok(rows) => raised == NameError("columns") && apiResponse == Some(ReprOf(Rows(rows)))
      ensures params == old(params) && history == old(history) && raw == old(raw) && response == old(response) && db == old(db)
    {
      if "table_id" !in params {
        return ValueError("Missing required parameter table_id.");
      }
      var fetched := SelectAll(db, params["table_id"]);
      if fetched.Err? {
        return fetched.error;
      }
      apiResponse := Some(ReprOf(Rows(fetched.value)));
      raised := NameError("columns");
    }

    /** `template_response`: as in the tool functions, but the pseudonyms are resolved against the
        master key tables of the source database. */
    method TemplateResponse(src: Database) returns (r: Result<string>)
      modifies this
      ensures "final_response" !in old(params) ==>
        r == Err(KeyError("final_response")) && apiResponse == old(apiResponse) && history == old(history)
      ensures "final_response" in old(params) ==>
        var text := old(params)["final_response"];
        var resolved := ResolveSpec(src, MasterKeys, text);
        && apiResponse == Some(Str(text))
        && (resolved.Err? ==> r == resolved && history == old(history))
        && (resolved.Ok? ==>
              match CallName(old(response))
              case Err(e) => r == Err(e) && history == old(history)
              case Ok(name) => r == resolved && history == old(history) + [Entry(name, old(params), Str(text))])
      ensures params == old(params) && raw == old(raw) && response == old(response) && db == old(db)
    {
      if "final_response" !in params {
        return Err(KeyError("final_response"));
      }
      var text := params["final_response"];
      apiResponse := Some(Str(text));
      var resolved := Resolve(src, MasterKeys, text);
      if resolved.Err? {
        return resolved;
      }
      var name := CallName(response);
      if name.Err? {
        return Err(name.error);
      }
      history := history + [Entry(name.value, params, Str(text))];
      r := resolved;
    }

    /** `sql_query`: the cleaned query runs on the agent's connection and every exception is
        swallowed. That connection returns plain tuples, so `dict(row)` succeeds only when every
        value is a two-character text, each read as one key and one value. */
    method SqlQuery(exec: (Database, string) -> QueryResult)
      modifies this
      ensures "query" !in old(params) ==> apiResponse == old(apiResponse) && history == old(history)
      ensures "query" in old(params) ==>
        var res := exec(old(db), CleanQuery(old(params)["query"]));
        && (res.Raised? ==> apiResponse == old(apiResponse) && history == old(history))
        && (res.Fetched? && !AllPairs(res.rows) ==> apiResponse == Some(Rows(res.rows)) && history == old(history))
        && (res.Fetched? && AllPairs(res.rows) ==>
              var logged := JsonOf(ReprOf(PairDicts(res.rows)));
              match CallName(old(response))
              case Err(_) => apiResponse == Some(Rows(res.rows)) && history == old(history)
              case Ok(name) => apiResponse == Some(logged) && history == old(history) + [Entry(name, old(params), logged)])
      ensures params == old(params) && raw == old(raw) && response == old(response) && db == old(db)
    {
      if "query" !in params {
        return;
      }
      var res := exec(db, CleanQuery(params["query"]));
      if res.Raised? {
        return;
      }
      apiResponse := Some(Rows(res.rows));
      if !AllPairs(res.rows) {
        return;
      }
      var logged := JsonOf(ReprOf(PairDicts(res.rows)));
      var name := CallName(response);
      if name.Err? {
        return;
      }
      history := history + [Entry(name.value, params, logged)];
      apiResponse := Some(logged);
    }
  }

  /** Whether `dict(row)` succeeds on every fetched tuple: each value must be a two-item
      iterable, that is a two-character text or a two-byte BLOB. */
  predicate AllPairs(rows: seq<seq<Cell>>) {
    forall i, j :: 0 <= i < |rows| && 0 <= j < |rows[i]| ==>
      (rows[i][j].Text? && |rows[i][j].s| == 2) || (rows[i][j].Blob? && |rows[i][j].bytes| == 2)
  }
}
