/**
 * Replies and request fields as the handlers of both deployments see them:
 * a reply is a status with a JSON body (or no body, for a pre-flight
 * `OPTIONS`), and the handlers read the same kinds of fields from a request
 * body — a keyword to trim, and a sentence id to bind into a statement.
 */
module Http {
  import opened Options
  import opened JsString
  import opened JsValue
  import opened Store

  /** What a handler sends: a status and a JSON body, `None` for `res.end()`. */
  datatype Reply = Reply(status: int, body: Option<Json>)

  datatype Method = Get | Post | Options | Other(name: string)

  /** `sendJson(res, status, { error: message })` */
  function ErrorReply(status: int, message: string): Reply {
    Reply(status, Some(JObj(map["error" := JStr(message)])))
  }

  function Ok(body: Json): Reply {
    Reply(200, Some(body))
  }

  /** The `{ success: true }` body. */
  const Success: Json := JObj(map["success" := JBool(true)])

  /** The outcome of reading the `keyword` field of a request body. */
  datatype KeywordCheck =
    | Keyword(text: string)   // a string with content, trimmed
    | NoKeyword               // absent, falsy, or white space only: the 400 case
    | KeywordThrows           // the body is null, or the keyword a truthy non-string (no `trim`)

  /**
   * `(payload.keyword || '').trim()` followed by `if (!keyword)`, and equally
   * `!keyword || keyword.trim() === ''` followed by `keyword.trim()`: both
   * read the field the same way.
   */
  function ReadKeyword(payload: Json): (r: KeywordCheck)
    ensures r.KeywordThrows? <==>
              payload.JNull? || (Present(Member(payload, "keyword")) && !IsString(Member(payload, "keyword")))
    ensures r.NoKeyword? <==>
              !payload.JNull? &&
              (!Present(Member(payload, "keyword")) ||
               (IsString(Member(payload, "keyword")) && Blank(Member(payload, "keyword").value.s)))
    ensures r.Keyword? ==>
              IsString(Member(payload, "keyword")) &&
              r.text == Trim(Member(payload, "keyword").value.s) &&
              r.text != "" && Trim(r.text) == r.text
  {
    if payload.JNull? then KeywordThrows
    else
      var k := Member(payload, "keyword");
      if !Present(k) then NoKeyword
      else if !k.value.JStr? then KeywordThrows
      else
        TrimEmptyIffBlank(k.value.s);
        TrimIdempotent(k.value.s);
        if Trim(k.value.s) == "" then NoKeyword else Keyword(Trim(k.value.s))
  }

  /** The outcome of reading the sentence id a statement binds. */
  datatype RefCheck =
    | Ref(value: Json)   // the id is truthy, and `value` is what the driver binds for it
    | NoRef              // absent or falsy: the 400 case
    | RefThrows          // the body is null, or the driver refuses the truthy id

  /**
   * `if (!id)` rejects a missing or falsy id. A truthy id is passed to the
   * statement as it is: a number or a string is bound, a one-element array
   * binds its element (which may be null), and anything else (`true`, an
   * object, another array) makes the statement throw.
   */
  function ReadRef(payload: Json, key: string): (r: RefCheck)
    ensures r.Ref? <==> !payload.JNull? && Present(Member(payload, key)) && Bound(Member(payload, key).value).Some?
    ensures r.Ref? ==> Member(payload, key).Some? && Some(r.value) == Bound(Member(payload, key).value)
    ensures r.NoRef? <==> !payload.JNull? && !Present(Member(payload, key))
  {
    if payload.JNull? then RefThrows
    else
      var v := Member(payload, key);
      if !Present(v) then NoRef
      else if Bound(v.value).Some? then Ref(Bound(v.value).value)
      else RefThrows
  }
}
