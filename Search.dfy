/** The web-search step (`tavily_search`) once the HTTP exchange is done: the JSON
    body's `results` array is turned into records tagged with the query, every
    missing field defaulting to the empty string. */
module Search {
  import opened Wrappers

  /** One element of the response's `results` array; `None` is an absent key. */
  datatype RawItem = RawItem(title: Option<string>, url: Option<string>, content: Option<string>)

  /** The decoded response body; `results` is `None` when the key is absent. */
  datatype SearchResponse = SearchResponse(results: Option<seq<RawItem>>)

  /** What the search service gives back for one query: a decoded body, or the
      exception raised by the POST or by decoding. */
  datatype SearchReply = Answered(body: SearchResponse) | Failed(message: string)

  /** The search service is a parameter: the reply to a query. */
  type SearchService = string -> SearchReply

  /** A normalised result: `{"question", "title", "url", "content"}`. */
  datatype SearchResult = SearchResult(question: string, title: string, url: string, content: string)

  /** `data.get("results", [])` */
  function Items(data: SearchResponse): (items: seq<RawItem>)
    ensures data.results.None? ==> items == []
  {
    data.results.GetOr([])
  }

  /** The record built for one item: the query, and each field or "" when absent. */
  function NormaliseItem(query: string, item: RawItem): (r: SearchResult)
  {
    SearchResult(query, item.title.GetOr(""), item.url.GetOr(""), item.content.GetOr(""))
  }

  /** Every record of the normalised list, as a function of the response. */
  function Normalised(query: string, data: SearchResponse): (rs: seq<SearchResult>)
    ensures |rs| == |Items(data)|
  {
    seq(|Items(data)|, i requires 0 <= i < |Items(data)| => NormaliseItem(query, Items(data)[i]))
  }

  /** The loop of `tavily_search`: one record per item, in order, each carrying the
      query and the item's title, url and content, or "" for any that is absent. */
  method NormaliseResults(query: string, data: SearchResponse) returns (results: seq<SearchResult>)
    ensures |results| == |Items(data)|
    ensures forall i :: 0 <= i < |results| ==>
              var item := Items(data)[i];
              results[i].question == query
              && results[i].title == (if item.title.Some? then item.title.value else "")
              && results[i].url == (if item.url.Some? then item.url.value else "")
              && results[i].content == (if item.content.Some? then item.content.value else "")
    ensures results == Normalised(query, data)
  {
    var items := Items(data);
    results := [];
    for k := 0 to |items|
      invariant results == Normalised(query, data)[..k]
    {
      results := results + [NormaliseItem(query, items[k])];
    }
  }

  /** What `tavily_search(query)` returns or raises, as a function of the service. */
  function SearchOutcome(query: string, search: SearchService): (r: Result<seq<SearchResult>>)
    ensures r.Failure? <==> search(query).Failed?
    ensures r.Failure? ==> r.error == search(query).message
    ensures r.Success? ==> r.value == Normalised(query, search(query).body)
  {
    match search(query)
    case Failed(e) => Failure(e)
    case Answered(data) => Success(Normalised(query, data))
  }

  /** `tavily_search(query)`: one call to the service; its exception propagates. */
  method TavilySearch(query: string, search: SearchService) returns (r: Result<seq<SearchResult>>)
    ensures r == SearchOutcome(query, search)
  {
    var reply := search(query);
    match reply {
      case Failed(e) =>
        r := Failure(e);
      case Answered(data) =>
        var results := NormaliseResults(query, data);
        r := Success(results);
    }
  }
}
