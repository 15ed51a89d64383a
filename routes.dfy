/** The Gogo route handlers (src/routes/anime/animepahe.ts:166-186): every
    operation runs under `safeRun`, so a thrown error reaches the client as a
    200 reply carrying the message and an empty `results` list. */
module Routes {
  import opened Wrappers
  import opened Shield
  import opened Pages
  import opened Gogo

  /** A reply body: the operation's own value, or `{ error, results: [] }`. */
  datatype Body<T> = Payload(value: T) | ErrorBody(error: string, results: seq<T>)

  datatype Reply<T> = Reply(status: nat, body: Body<T>)

  /** `safeRun`: a success is sent as is (status 200 by default), a thrown
      error becomes a 200 reply with its message and no results. */
  function SafeRun<T>(outcome: Result<T>): (reply: Reply<T>)
    ensures reply.status == 200
    ensures reply.body.ErrorBody? <==> outcome.Failure?
    ensures outcome.Success? ==> reply.body.value == outcome.value
    ensures outcome.Failure? ==> reply.body.error == outcome.error && reply.body.results == []
  {
    match outcome
    case Success(v) => Reply(200, Payload(v))
    case Failure(message) => Reply(200, ErrorBody(message, []))
  }

  /** `GET /gogo/search/:query` (and the catch-all `/:query`): never an error. */
  method ServeSearch(query: string) returns (reply: Reply<SearchResponse>)
    ensures reply.status == 200 && reply.body.Payload?
    ensures |reply.body.value.results| == 1 && reply.body.value.results[0].title == query
  {
    var res := Search(query);
    reply := SafeRun(Success(res));
  }

  /** `GET /gogo/info/:id` (and `/info/:id`): 200 always; an error body exactly
      when every mirror failed. */
  method ServeInfo(net: Network, parser: Parser, id: string) returns (reply: Reply<SeriesInfo>)
    ensures reply == SafeRun(ResolveInfo(net, parser, id, Mirrors))
    ensures reply.status == 200
    ensures reply.body.ErrorBody? <==>
              forall j :: 0 <= j < |Mirrors| ==> MirrorEpisodes(net, parser, id, Mirrors[j]) == []
    ensures reply.body.ErrorBody? ==> reply.body == ErrorBody(InfoFailed, [])
  {
    var outcome := FetchAnimeInfo(net, parser, id);
    InfoOutcome(net, parser, id, Mirrors);
    reply := SafeRun(outcome);
  }

  /** `GET /gogo/watch/:episodeId` (and `/watch/:episodeId`): 200 always; an
      error body exactly when no mirror yielded a video id. */
  method ServeWatch(net: Network, parser: Parser, episodeId: string) returns (reply: Reply<SourcesResponse>)
    ensures reply == SafeRun(ResolveSources(net, parser, episodeId, Mirrors))
    ensures reply.status == 200
    ensures reply.body.ErrorBody? <==>
              forall j :: 0 <= j < |Mirrors| ==> MirrorVideoId(net, parser, episodeId, Mirrors[j]).None?
    ensures reply.body.ErrorBody? ==> reply.body == ErrorBody(WatchFailed, [])
    ensures reply.body.Payload? ==> |reply.body.value.sources| == 1
  {
    var outcome := FetchEpisodeSources(net, parser, episodeId);
    SourcesOutcome(net, parser, episodeId, Mirrors);
    reply := SafeRun(outcome);
  }
}
