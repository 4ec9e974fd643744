/** The request and response shapes the handlers of app.py see. Flask's routing,
    templates and status-line handling are not modelled; a handler's outcome is
    one of the values below. */
module Http {

  /** A submitted form (`request.form`): field name to its (first) value. */
  type Form = map<string, string>

  /** Raw bytes of an uploaded file part. */
  type Upload = seq<bv8>

  datatype Response =
      /** `render_template(template, <one variable>=value)`, status 200. */
    | Page(template: string, value: string)
      /** A `(body, status)` tuple returned directly by a handler. */
    | Plain(body: string, status: nat)
      /** `request.form[key]` raised because `key` was not submitted. */
    | MissingFormField(key: string)
}
