/**
 * The records the service exchanges and the logic its live HTTP handlers
 * add around their database calls (backend/src/main.rs). Each handler's SQL
 * round trip is not modelled: its outcome is a parameter.
 */
module Api {
  import opened Wrappers
  import opened Db

  /** The record the service stores and returns. */
  datatype Template = Template(id: i32, subject: string, body: string)

  /** The payload of a create request: a template without its id. */
  datatype PartialTemplate = PartialTemplate(subject: string, body: string)

  /** The id every template created through `/create_template` is given. */
  const NewTemplateId: i32 := 10

  /** A template's payload, without its id. */
  function Payload(t: Template): PartialTemplate
  {
    PartialTemplate(t.subject, t.body)
  }

  /** The template `create_template_handler` builds from a create request. */
  function NewTemplate(p: PartialTemplate): (t: Template)
    ensures t.id == NewTemplateId
    ensures Payload(t) == p
  {
    Template(NewTemplateId, p.subject, p.body)
  }

  /** The request body of `update_template`, with its id forced to the query's `id`. */
  function WithQueryId(id: i32, t: Template): (r: Template)
    ensures r.id == id
    ensures Payload(r) == Payload(t)
  {
    t.(id := id)
  }

  /** Forcing the query id is idempotent and forgets whatever id the body carried. */
  lemma WithQueryIdOverrides(id: i32, t: Template, u: Template)
    ensures WithQueryId(id, WithQueryId(id, t)) == WithQueryId(id, t)
    ensures WithQueryId(id, t) == WithQueryId(id, u) <==> Payload(t) == Payload(u)
  {
  }

  /** `AppError`: any failure, with the text it displays. */
  datatype AppError = AppError(message: string)

  /** An HTTP status code and a text body. */
  datatype Response = Response(status: nat, body: string)

  /** `StatusCode::INTERNAL_SERVER_ERROR`. */
  const InternalServerError: nat := 500

  /** The text every error response starts with. */
  const ErrorPrefix: string := "Something went wrong: "

  /** `AppError::into_response`: status 500 and the error's message after a fixed prefix. */
  function IntoResponse(e: AppError): (r: Response)
    ensures r.status == InternalServerError
  {
    Response(InternalServerError, ErrorPrefix + e.message)
  }

  /** The message an error response carries, if the body has the error prefix. */
  function ErrorMessage(r: Response): (m: Option<string>)
    ensures m.Some? ==> ErrorPrefix + m.value == r.body
  {
    if |ErrorPrefix| <= |r.body| && r.body[..|ErrorPrefix|] == ErrorPrefix
    then Some(r.body[|ErrorPrefix|..])
    else None
  }

  /** The message of every error can be read back from its response, so distinct errors give distinct responses. */
  lemma ErrorResponseRoundTrip(e: AppError, f: AppError)
    ensures ErrorMessage(IntoResponse(e)) == Some(e.message)
    ensures IntoResponse(e) == IntoResponse(f) ==> e == f
  {
  }

  /**
   * The `AppError` a store failure becomes when a handler propagates it with
   * `?`: the client reads the failure's own text after the error prefix. The
   * only such propagation in the source is `db.count_templates()?` in the
   * commented-out `example_handler_count_templates` (main.rs:335); no live
   * handler reaches the in-memory store.
   */
  function FromDatabaseError(e: DatabaseError): (r: AppError)
    ensures ErrorMessage(IntoResponse(r)) == Some(Describe(e))
  {
    AppError(Describe(e))
  }

  /**
   * A read failure and a write failure of the store both become status 500,
   * yet their responses differ (for a handler that uses the commented-out
   * store, as `example_handler_count_templates` did).
   */
  lemma StoreFailuresAnswer500(e: DatabaseError, f: DatabaseError)
    ensures IntoResponse(FromDatabaseError(e)).status == 500
    ensures IntoResponse(FromDatabaseError(e)) == IntoResponse(FromDatabaseError(f)) <==> e == f
  {
  }

  /**
   * `create_template_handler`: the created template, or the failure of the
   * database insert (given as `insert`), which propagates unchanged.
   */
  function CreateTemplateHandler(p: PartialTemplate, insert: Result<(), AppError>): (r: Result<Template, AppError>)
    ensures insert.Err? <==> r.Err?
    ensures insert.Err? ==> r.error == insert.error
    ensures r.Ok? ==> r.value.id == NewTemplateId && Payload(r.value) == p
  {
    match insert
    case Err(e) => Err(e)
    case Ok(_) => Ok(NewTemplate(p))
  }

  /**
   * `update_template`: the request body under the query id, or the failure
   * of the database update (given as `update`), which propagates unchanged.
   */
  function UpdateTemplateHandler(id: i32, body: Template, update: Result<(), AppError>): (r: Result<Template, AppError>)
    ensures update.Err? <==> r.Err?
    ensures update.Err? ==> r.error == update.error
    ensures r.Ok? ==> r.value.id == id && Payload(r.value) == Payload(body)
  {
    match update
    case Err(e) => Err(e)
    case Ok(_) => Ok(WithQueryId(id, body))
  }

  /**
   * `create_template_handler` as it should be: the insert's `RETURNING id`
   * gives the id the database assigned, and that is the id the created
   * template is returned with.
   */
  function CreateTemplateHandlerReturningId(p: PartialTemplate, insert: Result<i32, AppError>): (r: Result<Template, AppError>)
    ensures insert.Err? <==> r.Err?
    ensures insert.Err? ==> r.error == insert.error
    ensures r.Ok? ==> r.value.id == insert.value && Payload(r.value) == p
  {
    match insert
    case Err(e) => Err(e)
    case Ok(id) => Ok(Template(id, p.subject, p.body))
  }
}
