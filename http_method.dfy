/** HTTP methods: the recognised tokens, parsing, and the CRUD convention. */
module HttpMethod {
  import opened Wrappers
  import opened Js

  /** `HTTPMethod.methods`: the nine recognised method tokens. */
  const Methods: seq<string> := ["GET", "POST", "PUT", "DELETE", "PATCH", "OPTIONS", "HEAD", "TRACE", "CONNECT"]

  /** `HTTPMethod.operationToMethod`: the CRUD operations that have a method of their own. */
  const OperationToMethod: Entries<string> :=
    [("read", "GET"), ("readAll", "GET"), ("create", "POST"), ("update", "PUT"), ("delete", "DELETE")]

  /** `isHTTPMethod` */
  predicate IsHttpMethod(m: string) {
    m in Methods
  }

  /**
   * `HTTPMethod.parse`: nothing for a non-string, the upper-cased token for
   * a recognised method in any case, an error naming the original text
   * otherwise.
   */
  function Parse(m: Value): (r: Result<Option<string>, string>)
    ensures r == Success(None) <==> !m.Str?
    ensures r.Success? && r.value.Some? ==> m.Str? && r.value.value == ToUpper(m.s)
    ensures r.Failure? ==> m.Str? && r.error == "Invalid HTTP method: " + m.s
  {
    if !m.Str? then Success(None)
    else
      var normalized := ToUpper(m.s);
      if IsHttpMethod(normalized) then Success(Some(normalized))
      else Failure("Invalid HTTP method: " + m.s)
  }

  /** `HTTPMethod.fromOperation`: the table's method, POST for any other operation. */
  function FromOperation(operation: string): (m: string)
    ensures operation !in Keys(OperationToMethod) ==> m == "POST"
  {
    Get(OperationToMethod, operation).GetOr("POST")
  }

  /** Whatever `parse` returns is one of the nine tokens; it fails exactly on the other strings. */
  lemma ParseYieldsToken(m: Value)
    ensures Parse(m).Success? && Parse(m).value.Some? ==> IsHttpMethod(Parse(m).value.value)
    ensures Parse(m).Failure? <==> m.Str? && !IsHttpMethod(ToUpper(m.s))
  {
  }

  /** Every token is a non-empty word, so a resolved method is truthy. */
  lemma MethodsNonEmpty(t: string)
    requires IsHttpMethod(t)
    ensures |t| >= 3
  {
    var i :| 0 <= i < |Methods| && Methods[i] == t;
    if i == 0 {} else if i == 1 {} else if i == 2 {} else if i == 3 {} else if i == 4 {}
    else if i == 5 {} else if i == 6 {} else if i == 7 {} else {}
  }

  /** `fromOperation` always yields one of the nine tokens. */
  lemma FromOperationIsMethod(operation: string)
    ensures IsHttpMethod(FromOperation(operation))
  {
  }

  /** The CRUD operations map to GET, GET, POST, PUT and DELETE. */
  lemma FromOperationTable()
    ensures FromOperation("read") == "GET" && FromOperation("readAll") == "GET"
    ensures FromOperation("create") == "POST" && FromOperation("update") == "PUT"
    ensures FromOperation("delete") == "DELETE"
    ensures FromOperation("other") == "POST" && FromOperation("") == "POST"
  {
    OperationRows();
    assert "other"[0] == 'o' && |""| == 0;
    NoRow("other");
    NoRow("");
  }

  /** An operation without a row of its own maps to POST. */
  lemma NoRow(operation: string)
    requires operation != "read" && operation != "readAll" && operation != "create"
    requires operation != "update" && operation != "delete"
    ensures FromOperation(operation) == "POST"
  {
    var t := OperationToMethod;
    var t4 := [t[4]] + [];
    var t3 := [t[3]] + t4;
    var t2 := [t[2]] + t3;
    var t1 := [t[1]] + t2;
    assert t == [t[0]] + t1;
    GetCons(t[4], [], operation);
    GetCons(t[3], t4, operation);
    GetCons(t[2], t3, operation);
    GetCons(t[1], t2, operation);
    GetCons(t[0], t1, operation);
  }

  lemma OperationRows()
    ensures Keys(OperationToMethod) == ["read", "readAll", "create", "update", "delete"]
    ensures Get(OperationToMethod, "read") == Some("GET") && Get(OperationToMethod, "readAll") == Some("GET")
    ensures Get(OperationToMethod, "create") == Some("POST") && Get(OperationToMethod, "update") == Some("PUT")
    ensures Get(OperationToMethod, "delete") == Some("DELETE")
  {
    var t := OperationToMethod;
    assert t[0].0 != "readAll";
    assert t[0].0 != "create" && t[1].0 != "create";
    assert t[0].0 != "update" && t[1].0 != "update" && t[2].0 != "update";
    assert t[0].0 != "delete" && t[1].0 != "delete" && t[2].0 != "delete" && t[3].0 != "delete";
  }

  predicate IsUpperWord(s: string) {
    forall i :: 0 <= i < |s| ==> 'A' <= s[i] <= 'Z'
  }

  lemma UpperWordFixed(s: string)
    requires IsUpperWord(s)
    ensures ToUpper(s) == s
  {
  }

  /** Every recognised token is already in upper case. */
  lemma {:induction false} TokensAreUpperCase(t: string)
    requires IsHttpMethod(t)
    ensures ToUpper(t) == t
  {
    var i :| 0 <= i < |Methods| && Methods[i] == t;
    assert IsUpperWord(Methods[i]) by {
      if i == 0 { assert IsUpperWord("GET"); }
      else if i == 1 { assert IsUpperWord("POST"); }
      else if i == 2 { assert IsUpperWord("PUT"); }
      else if i == 3 { assert IsUpperWord("DELETE"); }
      else if i == 4 { assert IsUpperWord("PATCH"); }
      else if i == 5 { assert IsUpperWord("OPTIONS"); }
      else if i == 6 { assert IsUpperWord("HEAD"); }
      else if i == 7 { assert IsUpperWord("TRACE"); }
      else { assert IsUpperWord("CONNECT"); }
    }
    UpperWordFixed(t);
  }

  /** `parse` ignores case: two spellings that upper-case alike parse alike. */
  lemma ParseCaseInsensitive(s: string, t: string)
    requires ToUpper(s) == ToUpper(t)
    ensures Parse(Str(s)).Success? == Parse(Str(t)).Success?
    ensures Parse(Str(s)).Success? ==> Parse(Str(s)) == Parse(Str(t))
  {
  }

  /** A token in any mixture of cases is accepted and comes back upper-cased. */
  lemma ParseAcceptsAnyCase(t: string, s: string)
    requires IsHttpMethod(t) && ToUpper(s) == t
    ensures Parse(Str(s)) == Success(Some(t))
  {
  }

  /** `parse` is idempotent on what it accepts. */
  lemma {:induction false} ParseIdempotent(s: string)
    requires Parse(Str(s)).Success?
    ensures Parse(Str(s)).value.Some?
    ensures Parse(Str(Parse(Str(s)).value.value)) == Parse(Str(s))
  {
    TokensAreUpperCase(ToUpper(s));
  }

  /** The rejection text quotes the argument as given (`Invalid HTTP method: INVALID`). */
  lemma ParseRejectsInvalid()
    ensures Parse(Str("INVALID")) == Failure("Invalid HTTP method: INVALID")
    ensures Parse(Str("get")) == Success(Some("GET"))
  {
    UpperWordFixed("INVALID");
    assert "INVALID"[0] != "OPTIONS"[0] && "INVALID"[0] != "CONNECT"[0];
    assert !IsHttpMethod("INVALID");
    assert "Invalid HTTP method: " + "INVALID" == "Invalid HTTP method: INVALID";
    assert ToUpper("get") == "GET";
  }
}
