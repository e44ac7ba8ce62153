/** The boundary to the vendors' HTTP APIs. Every outbound request is replaced
    by a response oracle supplied by the caller of the model. */
module Transport {
  import opened JsValues

  /** What one outbound request produced: the parsed response body
      (`response.data`), or the error the HTTP client threw with its message. */
  datatype Response = Ok(data: JsValue) | TransportError(message: string)
}
