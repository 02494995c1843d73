/** The outbound HTTP client (internal/transport/http/transport.go) as the service sees it:
    a GET that either fails or yields a response whose body is then read and decoded. */
module HttpTransport {

  /** The fields the three name-inference APIs can answer with, once decoded. `age` is the
      JSON number as sent; `countries` holds the `country_id` of each entry of `country`, in
      the order sent. The probabilities are floats, and the echoed `count` and `name` are
      never read, so neither is kept. */
  datatype Payload = Payload(age: int, gender: string, countries: seq<string>)

  /** A response body: it cannot be read, it is not JSON of the expected shape, or it
      decodes to a payload. */
  datatype Body = Unreadable(reason: string) | Malformed(reason: string) | Decoded(payload: Payload)

  /** The outcome of one GET. */
  datatype Reply = Failed(reason: string) | Response(body: Body)

  /** A client whose remote side answers each URL with a fixed reply, and which records
      the URLs it was asked for, in order. */
  class Transport {
    const answer: string -> Reply
    var requested: seq<string>

    constructor (answer: string -> Reply)
      ensures this.answer == answer && requested == []
    {
      this.answer := answer;
      requested := [];
    }

    /** Get(url): one GET request. */
    method Get(url: string) returns (reply: Reply)
      modifies this
      ensures requested == old(requested) + [url]
      ensures reply == answer(url)
    {
      requested := requested + [url];
      reply := answer(url);
    }
  }
}
