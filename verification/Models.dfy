/** The event a load generator reports (models/event.go). */
module Models {
  datatype Event = Event(
    runId: string, ts: int, podId: string, vu: int, iter: int,
    httpMethod: string, url: string, name: string,
    status: int, bodyLen: int,
    rtt: real, dnsLookup: real, tcpConnect: real, tlsHandshake: real, ttfb: real, contentTransfer: real,
    requestSize: int, responseSize: int,
    errorCode: string, errorMsg: string,
    tags: map<string, string>)
  {
    predicate IsError() {
      errorCode != "" || status >= 400
    }
  }
}
