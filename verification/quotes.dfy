/** The quote-finder agent's two tools over a vector store. The store's search and
    add results are inputs; `json.loads` and Python's `str()` are parameters. */
module Quotes {
  import opened Common
  import opened Text

  datatype Document = Document(text: string, metadata: Json)

  // ---------------------------------------------------------------------------
  // add_quote

  /** The metadata `add_quote` attaches: nothing for an empty string, the parsed value
      when `json.loads` accepts the string, and the raw string under `info` otherwise. */
  function QuoteMetadata(metadata: string, loads: string -> Option<Json>): (meta: Json)
    ensures metadata == "" ==> meta == JObj(map[])
    ensures metadata != "" && loads(metadata).Some? ==> meta == loads(metadata).value
    ensures metadata != "" && loads(metadata).None? ==> meta == JObj(map["info" := JStr(metadata)])
  {
    if metadata == "" then JObj(map[])
    else match loads(metadata)
      case Some(v) => v
      case None => JObj(map["info" := JStr(metadata)])
  }

  const NoId: string := "Quote added (no ID returned)"
  const IdPrefix: string := "Added quote with ID "

  /** The reply: the first returned id, or the fallback sentence when the store gave
      none. */
  function AddedReply(ids: seq<string>): (reply: string)
    ensures ids == [] <==> reply == NoId
    ensures ids != [] ==> |reply| >= |IdPrefix| && reply[..|IdPrefix|] == IdPrefix && reply[|IdPrefix|..] == ids[0]
  {
    if ids != [] then
      assert (IdPrefix + ids[0])[0] != NoId[0];
      IdPrefix + ids[0]
    else NoId
  }

  /** The reply identifies the store's answer: whether an id came back, and which one
      came first. */
  lemma AddedReplyIdentifies(ids: seq<string>, ids': seq<string>)
    requires AddedReply(ids) == AddedReply(ids')
    ensures ids == [] <==> ids' == []
    ensures ids != [] ==> ids[0] == ids'[0]
  {
  }

  datatype Added = Added(document: Document, reply: string)

  /** `add_quote(content, metadata)`: build the document, hand it to the store (`add`
      returns the ids the store reports), and reply. */
  function AddQuote(content: string, metadata: string, loads: string -> Option<Json>,
                    add: Document -> seq<string>): (r: Added)
    ensures r.document == Document(content, QuoteMetadata(metadata, loads))
    ensures r.reply == AddedReply(add(r.document))
  {
    var doc := Document(content, QuoteMetadata(metadata, loads));
    Added(doc, AddedReply(add(doc)))
  }

  // ---------------------------------------------------------------------------
  // search_quotes

  /** `results.get(key, [])` on the store's search result. */
  function Field(results: map<string, seq<Json>>, key: string): (v: seq<Json>)
    ensures key in results ==> v == results[key]
    ensures key !in results ==> v == []
  {
    if key in results then results[key] else []
  }

  function NotFound(query: string): string {
    "No quotes found for: '" + query + "'"
  }

  /** One `f"Quote: {doc}\nMetadata: {meta}"` block per pair `zip` produces: as many
      as the shorter list has entries. */
  function Blocks(docs: seq<Json>, metas: seq<Json>, show: Json -> string): (blocks: seq<string>)
    ensures |blocks| == if |docs| <= |metas| then |docs| else |metas|
    ensures forall k | 0 <= k < |blocks| ::
              blocks[k] == "Quote: " + Str(docs[k], show) + "\nMetadata: " + Str(metas[k], show)
  {
    var n := if |docs| <= |metas| then |docs| else |metas|;
    seq(n, k requires 0 <= k < n => "Quote: " + Str(docs[k], show) + "\nMetadata: " + Str(metas[k], show))
  }

  const Divider: string := "\n---\n"

  /** `search_quotes(query)` over the store's answer `results`. */
  function SearchQuotes(query: string, results: map<string, seq<Json>>, show: Json -> string)
    : (reply: string)
    ensures Field(results, "documents") == [] ==> reply == NotFound(query)
    ensures Field(results, "documents") != [] ==>
              reply == Join(Divider, Blocks(Field(results, "documents"), Field(results, "metadatas"), show))
  {
    var docs := Field(results, "documents");
    var metas := Field(results, "metadatas");
    if docs == [] then NotFound(query)
    else Join(Divider, Blocks(docs, metas, show))
  }

  /** The not-found sentence appears exactly when there are no documents: a search
      with documents but no metadata replies with the empty string, and one with both
      starts with its first quote. */
  lemma SearchQuotesCases(query: string, results: map<string, seq<Json>>, show: Json -> string)
    ensures var reply := SearchQuotes(query, results, show);
            var docs := Field(results, "documents");
            var metas := Field(results, "metadatas");
            && (reply == NotFound(query) <==> docs == [])
            && (docs != [] && metas == [] ==> reply == "")
            && (docs != [] && metas != [] ==> |reply| >= 7 && reply[..7] == "Quote: ")
  {
    var reply := SearchQuotes(query, results, show);
    var docs := Field(results, "documents");
    var metas := Field(results, "metadatas");
    if docs != [] && metas != [] {
      var blocks := Blocks(docs, metas, show);
      assert blocks[0][..7] == "Quote: ";
      if |blocks| == 1 {
        assert reply == blocks[0];
      } else {
        assert reply == blocks[0] + Divider + Join(Divider, blocks[1..]);
      }
      assert reply[0] != NotFound(query)[0];
    }
  }

  /** Every zipped pair is shown in the reply. */
  lemma SearchQuotesShowsEveryPair(query: string, results: map<string, seq<Json>>,
                                   show: Json -> string, k: nat)
    requires Field(results, "documents") != []
    requires k < |Field(results, "documents")| && k < |Field(results, "metadatas")|
    ensures Contains(SearchQuotes(query, results, show),
                     "Quote: " + Str(Field(results, "documents")[k], show)
                     + "\nMetadata: " + Str(Field(results, "metadatas")[k], show))
  {
    JoinContains(Divider, Blocks(Field(results, "documents"), Field(results, "metadatas"), show), k);
  }
}
