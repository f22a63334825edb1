# haystack-meilisearch, modelled in Dafny

`haystack_meilisearch.py` is a Haystack search backend that stores every
indexed Django object in a single Meilisearch index named `"haystack"`. Its
own logic is small and sits around calls to the Meilisearch client:

- `MeiliSearchBackend.__init__` demands the `URL` and `KEY` connection
  options, checking `URL` first, and stores both.
- `update` takes the documents Haystack's `full_prepare` builds, one per
  object and in order, and rewrites each document's `"id"` so that every `.`
  becomes `_` (Meilisearch ids may not contain dots) before handing the list
  to `add_documents`.
- `search` splits each hit id on `_` and unpacks the pieces into
  `app_label, model_name, pk`, builds one result per hit with score 0, and
  reports `hits` as the number of results.

The project has three modules:

- `Wrappers` (`wrappers.dfy`): the `Result` type that stands for "returns a
  value or raises".
- `Identifiers` (`identifiers.dfy`): the pure string logic, modelled after
  the Python built-ins the code calls. `Replace` models `str.replace`,
  `Split` models `str.split` with an explicit separator, and `DecodeId`
  models the three-way tuple unpacking. `Join` is the inverse used to state
  what splitting preserves, and `Dotted` is Haystack's
  `app_label.model_name.pk` identifier format.
- `Backend` (`backend.dfy`): the class `MeiliSearchBackend` with fields `url`
  and `key`. A static method `Open` stands for the raising constructor. The
  methods `Update` (a loop that rewrites ids in place in an array) and
  `Search` (a loop that appends results) carry the source's loops.

The Meilisearch store is an input and an output. `Update` returns the batch
that `add_documents` would receive. `Search` is given the ids of the hits
that `index.search(query_string)` returned.

What the code does at the edges:

- An id that does not split into exactly three pieces makes the whole
  `search` raise.
- `split` uses every `_`, so an app label or pk containing `_` also makes
  `search` raise.
- Every model shares one index, `"haystack"`.

## Model

| member | source | states |
|---|---|---|
| `Identifiers.Replace` | haystack_meilisearch.py:28 | `str.replace` on one character keeps the length, turns every `target` into `replacement` and leaves every other character at its position |
| `Identifiers.NormaliseId` | haystack_meilisearch.py:28 | the rewritten id has the same length, contains no `.`, has `_` wherever the original had `.`, and is unchanged everywhere else |
| `Identifiers.NormaliseIdIdempotent` | haystack_meilisearch.py:28 | rewriting an already rewritten id changes nothing |
| `Identifiers.NormaliseIdWithoutDots` | haystack_meilisearch.py:28 | an id without `.` is stored exactly as given |
| `Identifiers.CountReplace` | haystack_meilisearch.py:28 | after the rewrite, the number of `_` is the old number of `_` plus the old number of `.` |
| `Identifiers.Split` | haystack_meilisearch.py:41 | `split("_")` gives one piece more than there are underscores, and no piece contains `_` |
| `Identifiers.JoinSplit` | haystack_meilisearch.py:41 | joining the pieces of `split("_")` with `_` gives the id back, so splitting loses nothing |
| `Identifiers.SplitJoin` | haystack_meilisearch.py:41 | splitting the `_`-join of pieces that contain no `_` gives exactly those pieces back |
| `Identifiers.DecodeId` | haystack_meilisearch.py:41 | unpacking succeeds iff the id holds exactly two `_`; then the three parts contain no `_` and join back to the id; otherwise it raises "not enough values" (with the piece count) for fewer underscores and "too many values" for more |
| `Identifiers.DecodeJoined` | haystack_meilisearch.py:41 | three parts free of `_`, joined by `_`, unpack to exactly those three parts |
| `Identifiers.RoundTrip` | haystack_meilisearch.py:28-41 | an id `app_label.model_name.pk` rewritten by `update` decodes in `search` iff no part contains `.` or `_`, and then it decodes to exactly those three parts |
| `Backend.IdError` | haystack_meilisearch.py:28 | a document without `"id"` raises KeyError (`MissingId`); one whose id is not a `str` raises whatever its failed `.replace` raises (`IdNotStr`: AttributeError for int or None, TypeError for bytes) |
| `Backend.MeiliSearchBackend.Open` | haystack_meilisearch.py:11-17 | construction fails iff `URL` or `KEY` is missing, with "URL not set" whenever `URL` is missing (even if `KEY` is missing too) and "KEY not set" otherwise; on success the new backend stores exactly the given `url` and `key` |
| `Backend.MeiliSearchBackend.constructor` | haystack_meilisearch.py:13-17 | the backend keeps the `url` and `key` it is given |
| `Backend.MeiliSearchBackend.Update` | haystack_meilisearch.py:25-30 | succeeds iff every prepared document has a `str` id; then it yields one document per input in input order, each with the same keys, its id rewritten (and free of `.`), and every other field as prepared; otherwise it raises the error of the first bad document |
| `Backend.MeiliSearchBackend.Search` | haystack_meilisearch.py:32-47 | succeeds iff every hit id holds exactly two `_`; then it yields one result per hit in hit order, each with score 0 and the decoded parts, which join back to the hit id, and `hits` equals the number of results; otherwise it raises the unpacking error of the first bad hit and returns no partial result |

## Left out

- Every Meilisearch client call is left out because it goes over the network to an external service. That covers `Client(url, key)`, `client.index("haystack")`, `add_documents`, `delete_all_documents` and `index.search`. Their inputs and outputs are plain sequences.
- `clear` is left out: it is one client call and ignores its `models` and `commit` arguments.
- Haystack's `full_prepare`, `BaseSearchBackend.__init__` (with `connection_alias`) and custom `result_class` factories are left out because they belong to the framework. Prepared documents are an input, and results are the `SearchResult` datatype.
- `MeiliSearchQuery.build_query_fragment` is left out. It is `str(value)` on an arbitrary Python object.
- `MeiliSearchEngine` and the `haystack` logger are left out because they are wiring only.
- `update`'s `commit` argument and `search`'s `query_string` and `**kwargs` are left out: the code passes them on or ignores them.
- `Backend.MeiliSearchBackend.Search`: a hit that has no `"id"` key, or whose id is not a `str`, is not modelled. Hits are given as id strings, because the documents this backend writes always carry a `str` id.
- `Backend.MeiliSearchBackend.Update`: when it fails part way, the documents before the bad one have already been rewritten in place in the dictionaries that `full_prepare` returned. The model copies the prepared documents into a fresh array, so that mutation is not visible to the caller.
- `Backend.MeiliSearchBackend.Open`: connection option values are modelled as strings. Python accepts any value and passes it to the client unchecked.
- Field values other than Python `str` are modelled by their textual form (`Other`), since `update` only ever inspects the id.
- `Backend.MeiliSearchBackend.Update`: a non-`str` id whose type has a working `replace(".", "_")` (a `str` subclass or a duck-typed object) is not modelled; every non-`str` id is taken to make the call raise.
