/**
 * The REST framework exception handler of utils/exceptions.py: Django
 * validation errors are turned into REST framework ones, the framework's
 * own handler builds the response, and the response data is reshaped into
 * the `{code, message, details}` error envelope.
 */
module Exceptions {
  import opened Wrappers
  import opened Json

  /**
   * The exceptions the handler tells apart. Django gives its validation
   * error a `code` attribute only when it is built from a single message;
   * `hasCode` says whether the attribute exists.
   */
  datatype Exc =
    | DjangoValidationError(messages: seq<string>, code: Option<string>, hasCode: bool)
    | ValidationError(detail: Json, code: Option<string>)
    | OtherError(name: string)

  /** What the framework's default handler returns for an exception it handles. */
  datatype BaseResponse = BaseResponse(statusCode: int, statusText: string, data: Json)

  /** The messages of a Django validation error as the REST framework detail list. */
  function MessageList(messages: seq<string>): (r: Json)
    ensures r.JList? && |r.items| == |messages|
    ensures forall i :: 0 <= i < |messages| ==> r.items[i] == JStr(messages[i])
  {
    JList(seq(|messages|, i requires 0 <= i < |messages| => JStr(messages[i])))
  }

  /** What reading the missing `code` attribute raises. */
  const MissingCode: string := "AttributeError: 'ValidationError' object has no attribute 'code'"

  /**
   * The exception handed to the framework: a Django validation error becomes
   * a REST framework one with the same messages and code, and raises when it
   * has no `code` attribute (one built from a list or a dict); any other
   * exception is passed on as it is.
   */
  function Converted(exc: Exc): (r: Result<Exc, string>)
    ensures r.Err? <==> exc.DjangoValidationError? && !exc.hasCode
    ensures r.Err? ==> r.error == MissingCode
    ensures r.Ok? ==> !r.value.DjangoValidationError?
    ensures exc.DjangoValidationError? && r.Ok? ==>
      r.value.ValidationError? && r.value.code == exc.code && r.value.detail == MessageList(exc.messages)
    ensures !exc.DjangoValidationError? ==> r == Ok(exc)
  {
    match exc
    case DjangoValidationError(messages, code, hasCode) =>
      if hasCode then Ok(ValidationError(MessageList(messages), code)) else Err(MissingCode)
    case _ => Ok(exc)
  }

  /** A Django validation error built from a list has no `code`, so the handler raises before any response is built. */
  lemma ListErrorRaises(messages: seq<string>)
    ensures Converted(DjangoValidationError(messages, None, false)) == Err(MissingCode)
    ensures Converted(DjangoValidationError(messages, None, true)) == Ok(ValidationError(MessageList(messages), None))
  {
  }

  // ---------------------------------------------------------------------------
  // The reshaping, as functions of the data

  /** A dict whose only key is `detail`. */
  predicate IsDetailOnly(data: Json) {
    data.JDict? && |data.fields| == 1 && "detail" in data.fields
  }

  /** The first step: a dict holding only `detail` is replaced by that detail. */
  function Unwrapped(data: Json): Json {
    if IsDetailOnly(data) then data.fields["detail"] else data
  }

  /** `d.setdefault(key, value)` on a dict. */
  function SetDefault(fields: Object, key: string, value: Json): (r: Object)
    ensures key in r && r.Keys == fields.Keys + {key}
    ensures key in fields ==> r == fields
    ensures key !in fields ==> r[key] == value && forall k :: k in fields ==> r[k] == fields[k]
  {
    if key in fields then fields else fields[key := value]
  }

  /** The string step: a string becomes `{code, message}`. */
  function StringStep(data: Json, code: int): Json {
    if data.JStr? then JDict(map["code" := JInt(code), "message" := data]) else data
  }

  /**
   * The reshaped data as the handler computes it: the string step is
   * followed by a separate list test whose `else` wraps everything that is
   * not a list, including the dict the string step has just built.
   */
  function Reshaped(data: Json, code: int, statusText: string): Json {
    var d := StringStep(Unwrapped(data), code);
    var e := if d.JList? then JDict(map["code" := JInt(code), "details" := JDict(map["detail" := d])])
             else JDict(map["code" := JInt(code), "details" := d]);
    JDict(SetDefault(e.fields, "message", JStr(statusText)))
  }

  /**
   * The reshaping with the list test as an alternative of the string test:
   * a string becomes `{code, message}` and keeps its own message.
   */
  function ReshapedIntended(data: Json, code: int, statusText: string): Json {
    var u := Unwrapped(data);
    var e := if u.JStr? then JDict(map["code" := JInt(code), "message" := u])
             else if u.JList? then JDict(map["code" := JInt(code), "details" := JDict(map["detail" := u])])
             else JDict(map["code" := JInt(code), "details" := u]);
    JDict(SetDefault(e.fields, "message", JStr(statusText)))
  }

  /**
   * Every reshaped response is `{code, details, message}` with the status
   * code, the status text as message, and as details the list under
   * `detail`, the `{code, message}` built from a string, or the data itself.
   */
  lemma ReshapedEnvelope(data: Json, code: int, statusText: string)
    ensures var r := Reshaped(data, code, statusText);
      && r.JDict?
      && r.fields.Keys == {"code", "details", "message"}
      && r.fields["code"] == JInt(code)
      && r.fields["message"] == JStr(statusText)
      && (Unwrapped(data).JStr? ==>
            r.fields["details"] == JDict(map["code" := JInt(code), "message" := Unwrapped(data)]))
      && (Unwrapped(data).JList? ==> r.fields["details"] == JDict(map["detail" := Unwrapped(data)]))
      && (!Unwrapped(data).JStr? && !Unwrapped(data).JList? ==> r.fields["details"] == Unwrapped(data))
  {
    var u := Unwrapped(data);
    var d := StringStep(u, code);
    var e := if d.JList? then JDict(map["code" := JInt(code), "details" := JDict(map["detail" := d])])
             else JDict(map["code" := JInt(code), "details" := d]);
    assert e.fields.Keys == {"code", "details"};
    assert "message" !in e.fields;
    EnvelopeFields(e.fields, code, statusText);
    if u.JStr? {
      assert d == JDict(map["code" := JInt(code), "message" := u]);
      assert e.fields["details"] == d;
    } else if u.JList? {
      assert d == u;
    } else {
      assert d == u;
    }
  }

  /** Adding the default message to `{code, details}`. */
  lemma EnvelopeFields(fields: Object, code: int, statusText: string)
    requires fields.Keys == {"code", "details"}
    ensures SetDefault(fields, "message", JStr(statusText)).Keys == {"code", "details", "message"}
    ensures SetDefault(fields, "message", JStr(statusText))["message"] == JStr(statusText)
    ensures SetDefault(fields, "message", JStr(statusText))["code"] == fields["code"]
    ensures SetDefault(fields, "message", JStr(statusText))["details"] == fields["details"]
  {
    assert "message" !in fields;
  }

  /** A dict holding only `detail` is reshaped as its detail would be. */
  lemma DetailUnwrapping(detail: Json, code: int, statusText: string)
    requires !IsDetailOnly(detail)
    ensures Reshaped(JDict(map["detail" := detail]), code, statusText) == Reshaped(detail, code, statusText)
  {
    assert IsDetailOnly(JDict(map["detail" := detail]));
  }

  /** Two-key dicts and other data are not unwrapped: a dict with `detail` and more keys becomes the details. */
  lemma DetailWithMoreKeys(fields: Object, code: int, statusText: string)
    requires "detail" in fields && |fields| > 1
    ensures Reshaped(JDict(fields), code, statusText).fields["details"] == JDict(fields)
  {
    ReshapedEnvelope(JDict(fields), code, statusText);
  }

  /**
   * The intended envelope: a string keeps its own message and gets no
   * details; every other kind of data is reshaped as the code does it.
   */
  lemma IntendedEnvelope(data: Json, code: int, statusText: string)
    ensures Unwrapped(data).JStr? ==>
              ReshapedIntended(data, code, statusText) == JDict(map["code" := JInt(code), "message" := Unwrapped(data)])
    ensures !Unwrapped(data).JStr? ==> ReshapedIntended(data, code, statusText) == Reshaped(data, code, statusText)
    ensures var r := ReshapedIntended(data, code, statusText);
      r.JDict? && r.fields["code"] == JInt(code) && "message" in r.fields
  {
    var u := Unwrapped(data);
    if u.JStr? {
      var m := map["code" := JInt(code), "message" := u];
      assert "message" in m;
      assert SetDefault(m, "message", JStr(statusText)) == m;
    }
  }

  /**
   * The handler as written loses a plain string message: a 404 whose detail
   * is "Not found." comes back with the status text as its message and the
   * detail buried under `details`.
   */
  lemma StringMessageBuried()
    ensures Reshaped(JDict(map["detail" := JStr("Not found.")]), 404, "Not Found").fields["message"] == JStr("Not Found")
    ensures ReshapedIntended(JDict(map["detail" := JStr("Not found.")]), 404, "Not Found").fields["message"] == JStr("Not found.")
  {
    var data := JDict(map["detail" := JStr("Not found.")]);
    assert IsDetailOnly(data);
    ReshapedEnvelope(data, 404, "Not Found");
    IntendedEnvelope(data, 404, "Not Found");
  }

  // ---------------------------------------------------------------------------
  // The handler itself

  /** A response whose data the handler reassigns step by step. */
  class Response {
    var data: Json
    const statusCode: int
    const statusText: string

    constructor(base: BaseResponse)
      ensures data == base.data && statusCode == base.statusCode && statusText == base.statusText
    {
      data := base.data;
      statusCode := base.statusCode;
      statusText := base.statusText;
    }

    /** The reshaping of `resp.data` that follows the framework's handler. */
    method Reshape()
      modifies this
      ensures data == Reshaped(old(data), statusCode, statusText)
    {
      if data.JDict? && |data.fields| == 1 && "detail" in data.fields {
        data := data.fields["detail"];
      }
      if data.JStr? {
        data := JDict(map["code" := JInt(statusCode), "message" := data]);
      }
      if data.JList? {
        data := JDict(map["code" := JInt(statusCode), "details" := JDict(map["detail" := data])]);
      } else {
        data := JDict(map["code" := JInt(statusCode), "details" := data]);
      }
      if "message" !in data.fields {
        data := JDict(data.fields["message" := JStr(statusText)]);
      }
    }
  }

  /**
   * `custom_exception_handler(exc, context)`: the error it raises itself
   * when the conversion fails; otherwise no response when the framework's
   * handler gives none, and its response with the data reshaped when it
   * gives one. The framework's handler is a parameter.
   */
  method CustomExceptionHandler(exc: Exc, base: Exc -> Option<BaseResponse>) returns (raised: Option<string>, resp: Option<Response>)
    ensures raised.Some? <==> Converted(exc).Err?
    ensures raised.Some? ==> raised.value == Converted(exc).error && resp.None?
    ensures raised.None? ==> (resp.None? <==> base(Converted(exc).value).None?)
    ensures raised.None? && resp.Some? ==>
      && fresh(resp.value)
      && resp.value.statusCode == base(Converted(exc).value).value.statusCode
      && resp.value.statusText == base(Converted(exc).value).value.statusText
      && resp.value.data == Reshaped(base(Converted(exc).value).value.data, resp.value.statusCode, resp.value.statusText)
  {
    var e := exc;
    if e.DjangoValidationError? {
      if !e.hasCode {
        return Some(MissingCode), None;
      }
      e := ValidationError(MessageList(e.messages), e.code);
    }
    raised := None;
    var b := base(e);
    if b.None? {
      return None, None;
    }
    var r := new Response(b.value);
    r.Reshape();
    resp := Some(r);
  }
}
