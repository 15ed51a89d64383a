/** The shielded fetcher (`fetchShield`, src/routes/anime/animepahe.ts:8-24):
    one logical GET relayed through the worker proxy with a browser
    User-Agent and a Referer, where every failure comes back as "". */
module Shield {
  import opened Wrappers

  const BrowserUserAgent: string :=
    "Mozilla/5.0 (Windows NT 10.0; Win64; x64) AppleWebKit/537.36 (KHTML, like Gecko) Chrome/120.0.0.0 Safari/537.36"

  const DefaultReferer: string := "https://gogoanimes.fi/"

  /** The logical request the proxy is asked to make on the caller's behalf. */
  datatype ShieldRequest = ShieldRequest(target: string, userAgent: string, referer: string)

  /** What the outbound `fetch` produced: a response with its status and body,
      or a thrown error (network failure, unreadable body). */
  datatype HttpReply = Answered(status: int, body: string) | Failed

  /** The upstream, as seen through the proxy: a fixed answer per request. */
  type Network = ShieldRequest -> HttpReply

  /** `Response.ok`: a status in the range 200-299. */
  predicate IsOk(reply: HttpReply)
  {
    reply.Answered? && 200 <= reply.status <= 299
  }

  /** `referer || 'https://gogoanimes.fi/'`: an absent or empty referer is replaced. */
  function EffectiveReferer(referer: Option<string>): (r: string)
    ensures referer.Some? && referer.value != "" ==> r == referer.value
    ensures referer.None? || referer.value == "" ==> r == DefaultReferer
    ensures r != ""
  {
    match referer
    case Some(v) => if v != "" then v else DefaultReferer
    case None => DefaultReferer
  }

  function RequestFor(target: string, referer: Option<string>): (req: ShieldRequest)
    ensures req.target == target && req.userAgent == BrowserUserAgent
    ensures req.referer == EffectiveReferer(referer)
  {
    ShieldRequest(target, BrowserUserAgent, EffectiveReferer(referer))
  }

  /** `fetchShield(target, referer)`: the body of an OK reply; "" for a
      non-OK status and for a thrown error. It never fails. */
  function FetchShield(net: Network, target: string, referer: Option<string>): (body: string)
    ensures IsOk(net(RequestFor(target, referer))) ==> body == net(RequestFor(target, referer)).body
    ensures !IsOk(net(RequestFor(target, referer))) ==> body == ""
  {
    var reply := net(RequestFor(target, referer));
    if IsOk(reply) then reply.body else ""
  }
}
