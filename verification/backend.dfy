/**
 * `MeiliSearchBackend`, the Haystack search backend that keeps every indexed
 * object in one Meilisearch index. The Meilisearch client stays outside the
 * model: `Update` returns the batch it hands to `add_documents`, and `Search`
 * receives the ids of the hits that `index.search` returned.
 */
module Backend {
  import opened Wrappers
  import opened Identifiers

  /** A field value of a prepared document: a Python `str`, or anything else. */
  datatype Value = Str(text: string) | Other(repr: string)

  /** A document as Haystack's `full_prepare` produces it: field name to value. */
  type Document = map<string, Value>

  /** The key under which a document carries its identifier. */
  const IdField: string := "id"

  /** The exception `__init__` raises for a missing connection option. */
  datatype ConfigError = UrlNotSet | KeyNotSet {
    function Message(): string {
      match this
      case UrlNotSet => "URL not set"
      case KeyNotSet => "KEY not set"
    }
  }

  /**
   * The exception `update` raises on a document whose id cannot be rewritten:
   * a KeyError when it has no `"id"`; otherwise whatever the failed
   * `.replace(".", "_")` on a non-`str` id raises (an AttributeError for an
   * int or None, a TypeError for bytes).
   */
  datatype UpdateError = MissingId | IdNotStr

  /** True when `document["id"].replace(".", "_")` can run. */
  predicate HasStrId(document: Document) {
    IdField in document && document[IdField].Str?
  }

  /** The exception the rewrite raises on a document without a `str` id. */
  function IdError(document: Document): (e: UpdateError)
    requires !HasStrId(document)
    ensures e == MissingId <==> IdField !in document
  {
    if IdField !in document then MissingId else IdNotStr
  }

  /** Haystack's `SearchResult` as the backend builds it. */
  datatype SearchResult = SearchResult(appLabel: string, modelName: string, pk: string, score: int)

  /** The dictionary `search` returns: the results and their number. */
  datatype SearchResponse = SearchResponse(results: seq<SearchResult>, hits: nat)

  class MeiliSearchBackend {
    var url: string
    var key: string

    constructor (url: string, key: string)
      ensures this.url == url && this.key == key
    {
      this.url := url;
      this.key := key;
    }

    /**
     * `__init__`: `URL` is looked up first, then `KEY`; the first missing one
     * aborts construction, otherwise both are stored.
     */
    static method Open(options: map<string, string>) returns (r: Result<MeiliSearchBackend, ConfigError>)
      ensures r.Success? <==> "URL" in options && "KEY" in options
      ensures r.Failure? ==> r.error == if "URL" !in options then UrlNotSet else KeyNotSet
      ensures r.Failure? ==> r.error.Message() == if "URL" !in options then "URL not set" else "KEY not set"
      ensures r.Success? ==> fresh(r.value) && r.value.url == options["URL"] && r.value.key == options["KEY"]
    {
      if "URL" !in options {
        return Failure(UrlNotSet);
      }
      var url := options["URL"];
      if "KEY" !in options {
        return Failure(KeyNotSet);
      }
      var key := options["KEY"];
      var backend := new MeiliSearchBackend(url, key);
      return Success(backend);
    }

    /**
     * `update`: the prepared documents, in order, each with its `"id"`
     * rewritten so that every `.` is a `_`; that list is what goes to
     * `add_documents`. The first document whose id cannot be rewritten
     * aborts the call, and nothing is sent.
     */
    method Update(prepared: seq<Document>) returns (r: Result<seq<Document>, UpdateError>)
      ensures r.Success? <==> forall i :: 0 <= i < |prepared| ==> HasStrId(prepared[i])
      ensures r.Success? ==> |r.value| == |prepared|
      ensures r.Success? ==> forall i :: 0 <= i < |prepared| ==>
        r.value[i].Keys == prepared[i].Keys &&
        r.value[i][IdField] == Str(NormaliseId(prepared[i][IdField].text)) &&
        Dot !in r.value[i][IdField].text &&
        (forall field :: field in prepared[i] && field != IdField ==> r.value[i][field] == prepared[i][field])
      ensures r.Failure? ==>
        exists i :: (0 <= i < |prepared| && !HasStrId(prepared[i]) &&
                     (forall j :: 0 <= j < i ==> HasStrId(prepared[j])) && r.error == IdError(prepared[i]))
    {
      var documents := new Document[|prepared|](i requires 0 <= i < |prepared| => prepared[i]);
      var n := 0;
      while n < documents.Length
        invariant 0 <= n <= documents.Length
        invariant forall j :: 0 <= j < n ==> HasStrId(prepared[j])
        invariant forall j :: 0 <= j < n ==>
          documents[j] == prepared[j][IdField := Str(NormaliseId(prepared[j][IdField].text))]
        invariant forall j :: n <= j < documents.Length ==> documents[j] == prepared[j]
      {
        var document := documents[n];
        if IdField !in document {
          return Failure(MissingId);
        }
        if !document[IdField].Str? {
          return Failure(IdNotStr);
        }
        documents[n] := document[IdField := Str(NormaliseId(document[IdField].text))];
        n := n + 1;
      }
      return Success(documents[..]);
    }

    /**
     * `search`: each hit id is split on `_` and unpacked into app label,
     * model name and primary key; the results keep the hits' order, each
     * with score 0, and `hits` is how many there are. The first id that does
     * not split into exactly three parts aborts the whole search.
     */
    method Search(hitIds: seq<string>) returns (r: Result<SearchResponse, UnpackError>)
      ensures r.Success? <==> forall i :: 0 <= i < |hitIds| ==> Count(hitIds[i], Separator) == 2
      ensures r.Success? ==> |r.value.results| == |hitIds| && r.value.hits == |r.value.results|
      ensures r.Success? ==> forall i :: 0 <= i < |hitIds| ==>
        var result := r.value.results[i];
        result.score == 0 &&
        DecodeId(hitIds[i]) == Success(DocumentKey(result.appLabel, result.modelName, result.pk)) &&
        Join([result.appLabel, result.modelName, result.pk], Separator) == hitIds[i]
      ensures r.Failure? ==>
        exists i :: (0 <= i < |hitIds| && DecodeId(hitIds[i]).Failure? &&
                     (forall j :: 0 <= j < i ==> DecodeId(hitIds[j]).Success?) && r.error == DecodeId(hitIds[i]).error)
    {
      var results: seq<SearchResult> := [];
      for n := 0 to |hitIds|
        invariant |results| == n
        invariant forall j :: 0 <= j < n ==>
          results[j].score == 0 &&
          DecodeId(hitIds[j]) == Success(DocumentKey(results[j].appLabel, results[j].modelName, results[j].pk))
      {
        var decoded := DecodeId(hitIds[n]);
        if decoded.Failure? {
          return Failure(decoded.error);
        }
        var key := decoded.value;
        results := results + [SearchResult(key.appLabel, key.modelName, key.pk, 0)];
      }
      return Success(SearchResponse(results, |results|));
    }
  }
}
