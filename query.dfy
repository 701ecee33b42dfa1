/** The request parameters sent to the instant-answer endpoint. Building the
    URL string and fetching it are transport and are not modelled. */
module Query {
  import opened Errors

  /** The keys the library always sets, whatever the caller passes. */
  const FixedKeys: set<string> := {"q", "o", "kp", "no_redirect", "no_html", "d"}

  /** The three boolean options, as the caller gives them. */
  datatype Options = Options(safeSearch: bool, html: bool, meanings: bool)

  /** Builds the parameter dict: the fixed entries first, then the caller's
      keyword arguments merged over them, as `dict.update` does. */
  method Query(qstr: string, safeSearch: bool := true, html: bool := false, meanings: bool := true,
               kwargs: map<string, string> := map[])
    returns (params: map<string, string>)
    ensures params.Keys == FixedKeys + kwargs.Keys
    ensures forall k :: k in kwargs ==> params[k] == kwargs[k]
    ensures "q" !in kwargs ==> params["q"] == qstr
    ensures "o" !in kwargs ==> params["o"] == "json"
    ensures "no_redirect" !in kwargs ==> params["no_redirect"] == "1"
    ensures "kp" !in kwargs ==> params["kp"] == (if safeSearch then "1" else "-1")
    ensures "no_html" !in kwargs ==> params["no_html"] == (if html then "0" else "1")
    ensures "d" !in kwargs ==> params["d"] == (if meanings then "0" else "1")
    // the three flags can be read back whenever the caller did not override them
    ensures kwargs.Keys !! {"kp", "no_html", "d"} ==>
              ReadOptions(params) == Ok(Options(safeSearch, html, meanings))
  {
    var kp := if safeSearch then "1" else "-1";
    var noHtml := if html then "0" else "1";
    var d := if meanings then "0" else "1";
    params := map["q" := qstr, "o" := "json", "kp" := kp, "no_redirect" := "1", "no_html" := noHtml, "d" := d];
    params := params + kwargs;
  }

  /** Reads one flag back from its literal: `on` means true, `off` false. */
  function ReadFlag(params: map<string, string>, key: string, on: string, off: string): (r: Result<bool>)
    requires on != off
    ensures r == Ok(true) <==> key in params && params[key] == on
    ensures r == Ok(false) <==> key in params && params[key] == off
    ensures r.Err? <==> key !in params || params[key] !in {on, off}
  {
    if key !in params then Err(KeyError(key))
    else if params[key] == on then Ok(true)
    else if params[key] == off then Ok(false)
    else Err(ValueError(params[key]))
  }

  /** The inverse of the flag translation: which options a parameter map encodes. */
  function ReadOptions(params: map<string, string>): (r: Result<Options>)
    ensures r.Ok? <==>
              && "kp" in params && params["kp"] in {"1", "-1"}
              && "no_html" in params && params["no_html"] in {"0", "1"}
              && "d" in params && params["d"] in {"0", "1"}
    ensures r.Ok? ==> (r.value.safeSearch <==> params["kp"] == "1")
    ensures r.Ok? ==> (r.value.html <==> params["no_html"] == "0")
    ensures r.Ok? ==> (r.value.meanings <==> params["d"] == "0")
  {
    var s :- ReadFlag(params, "kp", "1", "-1");
    var h :- ReadFlag(params, "no_html", "0", "1");
    var m :- ReadFlag(params, "d", "0", "1");
    Ok(Options(s, h, m))
  }
}
