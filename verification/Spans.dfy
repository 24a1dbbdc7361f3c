/** Recorded spans (internal/ingest/span.go). */
module Spans {
  datatype Span = Span(
    traceId: string,
    spanId: string,
    parent: string,
    service: string,
    name: string,
    kind: string,
    verb: string,
    route: string,
    start: int)
}
