/**
  Decisions exchanged with a middleware, and the fallback decision the client
  makes on the middleware's behalf (internal/greyproxy/middleware).
 */
module MiddlewareTypes {
  import opened Common

  type Headers = map<string, seq<string>>

  /**
    `body.None?` is the nil slice ("no rewrite"); tags are carried verbatim.
    `headers` lists the rewrite headers in the order in which Go's range happens
    to visit the map, so a statement for all decisions covers all visiting orders.
   */
  datatype Decision = Decision(
    id: string,
    action: string,
    statusCode: int,
    body: Option<seq<byte>>,
    headers: seq<(string, seq<string>)>,
    tags: map<string, string>,
    fallback: string)

  /** `ActionForTimeoutKind` of cascade.go: any policy but "allow" denies. */
  function ActionForTimeoutKind(onTimeout: string, isResponse: bool): string {
    if onTimeout == "allow" then (if isResponse then "passthrough" else "allow")
    else (if isResponse then "block" else "deny")
  }

  /**
    `fallbackLocked` of client.go. Under "allow" the decision lets the exchange
    pass and carries nothing that could change it; any other policy ends it.
   */
  function FallbackDecision(onTimeout: string, id: string, isResponse: bool, reason: string): (r: Decision)
    ensures r.id == id && r.fallback == reason
    ensures r.action == ActionForTimeoutKind(onTimeout, isResponse)
    ensures r.body.None? && r.headers == [] && r.tags == map[]
    ensures onTimeout == "allow" ==> r.statusCode == 0
    ensures onTimeout == "allow" ==> (isResponse ==> r.action == "passthrough") && (!isResponse ==> r.action == "allow")
    ensures onTimeout != "allow" ==> r.statusCode == if isResponse then 502 else 403
    ensures onTimeout != "allow" ==> (isResponse <==> r.action == "block") && (!isResponse <==> r.action == "deny")
  {
    var d := Decision(id, "", 0, None, [], map[], reason);
    if onTimeout == "allow" then
      if isResponse then d.(action := "passthrough") else d.(action := "allow")
    else
      if isResponse then d.(action := "block", statusCode := 502)
      else d.(action := "deny", statusCode := 403)
  }
}
