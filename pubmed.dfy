/**
 * The "doctor" tool server: `disease_diagnoser` searches PubMed for article
 * ids, fetches those articles and formats the ones that have both a title
 * and an abstract. The two HTTP round trips (with their JSON and XML
 * parsing) are parameters.
 */
module PubMed {
  import opened Wrappers
  import opened Text

  /** A GET request: the URL and its query parameters, in order. */
  datatype HttpGet = HttpGet(url: string, params: seq<(string, string)>)

  const SearchUrl := "https://eutils.ncbi.nlm.nih.gov/entrez/eutils/esearch.fcgi"
  const FetchUrl := "https://eutils.ncbi.nlm.nih.gov/entrez/eutils/efetch.fcgi"

  /** No two parameters of a request share a name, as in the dictionary they are built from. */
  predicate DistinctNames(params: seq<(string, string)>) {
    forall i, j :: 0 <= i < j < |params| ==> params[i].0 != params[j].0
  }

  /** The search request: up to five ids for the query, as JSON. */
  function SearchRequest(query: string): (r: HttpGet)
    ensures r.url == SearchUrl && DistinctNames(r.params)
    ensures ("db", "pubmed") in r.params && ("term", query) in r.params
    ensures ("retmax", "5") in r.params && ("retmode", "json") in r.params
  {
    HttpGet(SearchUrl, [("db", "pubmed"), ("term", query), ("retmax", "5"), ("retmode", "json")])
  }

  /** The fetch request: the ids joined with commas, in search order, as XML. */
  function FetchRequest(ids: seq<string>): (r: HttpGet)
    ensures r.url == FetchUrl && DistinctNames(r.params)
    ensures ("db", "pubmed") in r.params && ("id", Join(ids, ",")) in r.params && ("retmode", "xml") in r.params
  {
    HttpGet(FetchUrl, [("db", "pubmed"), ("id", Join(ids, ",")), ("retmode", "xml")])
  }

  /** The fetch request's `id` parameter splits back into the ids it was built from. */
  lemma FetchIdsReadBack(ids: seq<string>)
    requires ids != []
    requires forall i :: 0 <= i < |ids| ==> ',' !in ids[i]
    ensures FetchRequest(ids).params[1].0 == "id"
    ensures Split(FetchRequest(ids).params[1].1, ',') == ids
  {
    SplitJoin(ids, ',');
  }

  /**
   * The search answer: the `idlist` under `esearchresult`, or `None` when
   * either key is missing.
   */
  datatype SearchResult = SearchResult(idlist: Option<seq<string>>)

  /** A `pubmedarticle` element: the text of its `articletitle` and `abstracttext`, when found. */
  datatype Article = Article(title: Option<string>, abstractText: Option<string>)

  /**
   * A found element is truthy whatever its contents (a tag is always true);
   * only an element that was not found is false.
   */
  predicate Present(t: Option<string>) {
    t.Some?
  }

  /** An article contributes an entry when both its title and its abstract are there. */
  predicate Complete(a: Article) {
    Present(a.title) && Present(a.abstractText)
  }

  const Memo := "\U{1F4DD}"

  /** The entry for an article: the memo mark, the stripped title and the stripped abstract, one per line. */
  function Entry(title: string, abstractText: string): (e: string)
    ensures |e| == 4 + |Strip(title)| + |Strip(abstractText)|
    ensures e[..2] == Memo + " " && e[|e| - 1] == '\n'
  {
    Memo + " " + Strip(title) + "\n" + Strip(abstractText) + "\n"
  }

  /** The title and abstract lines of an entry read back when neither holds a line break. */
  lemma EntryReadsBack(title: string, abstractText: string)
    requires '\n' !in Strip(title) && '\n' !in Strip(abstractText)
    ensures Split(Entry(title, abstractText)[2..], '\n') == [Strip(title), Strip(abstractText), ""]
  {
    var t, a := Strip(title), Strip(abstractText);
    var parts := [t, a, ""];
    var body := t + "\n" + a + "\n";
    assert Entry(title, abstractText)[2..] == body by {
      assert Entry(title, abstractText) == (Memo + " ") + body;
    }
    assert Join(parts, "\n") == body by {
      assert parts[1..] == [a, ""];
      assert [a, ""][1..] == [""];
      assert Join([""], "\n") == "";
      assert Join([a, ""], "\n") == a + "\n" + "";
      assert Join(parts, "\n") == t + "\n" + Join([a, ""], "\n");
      assert a + "\n" + "" == a + "\n";
      assert t + "\n" + (a + "\n") == body;
    }
    SplitJoin(parts, '\n');
  }

  /** The entries of the complete articles, in article order: at most one per article, each behind the memo mark. */
  function Entries(articles: seq<Article>): (r: seq<string>)
    ensures |r| <= |articles|
    ensures forall i :: 0 <= i < |r| ==> |r[i]| >= 4 && r[i][..2] == Memo + " "
  {
    if articles == [] then []
    else
      var a := articles[|articles| - 1];
      Entries(articles[..|articles| - 1])
      + (if Complete(a) then [Entry(a.title.value, a.abstractText.value)] else [])
  }

  /** The number of complete articles. */
  function CompleteCount(articles: seq<Article>): nat {
    if articles == [] then 0
    else CompleteCount(articles[..|articles| - 1]) + (if Complete(articles[|articles| - 1]) then 1 else 0)
  }

  /** The entries of a concatenation are those of each part, in order. */
  lemma {:induction false} EntriesAppend(a: seq<Article>, b: seq<Article>)
    ensures Entries(a + b) == Entries(a) + Entries(b)
    decreases |b|
  {
    if b == [] {
      assert a + b == a;
    } else {
      var b' := b[..|b| - 1];
      EntriesAppend(a, b');
      assert (a + b)[..|a + b| - 1] == a + b';
      assert (a + b)[|a + b| - 1] == b[|b| - 1];
    }
  }

  /**
   * One entry per complete article and none for the others; every entry is
   * the entry of a complete article.
   */
  lemma {:induction false} EntriesOfCompleteArticles(articles: seq<Article>)
    ensures |Entries(articles)| == CompleteCount(articles) <= |articles|
    ensures forall e :: e in Entries(articles) ==>
              exists a :: a in articles && Complete(a) && e == Entry(a.title.value, a.abstractText.value)
  {
    if articles != [] {
      var init := articles[..|articles| - 1];
      var last := articles[|articles| - 1];
      EntriesOfCompleteArticles(init);
      forall e | e in Entries(articles)
        ensures exists a :: a in articles && Complete(a) && e == Entry(a.title.value, a.abstractText.value)
      {
        if e in Entries(init) {
          var a :| a in init && Complete(a) && e == Entry(a.title.value, a.abstractText.value);
          assert a in articles;
        } else {
          assert last in articles;
        }
      }
    }
  }

  /** The `for article` loop collecting `results`. */
  method CollectAbstracts(articles: seq<Article>) returns (results: seq<string>)
    ensures results == Entries(articles)
  {
    results := [];
    for i := 0 to |articles|
      invariant results == Entries(articles[..i])
    {
      var article := articles[i];
      assert articles[..i + 1][..i] == articles[..i];
      if Present(article.title) && Present(article.abstractText) {
        results := results + [Entry(article.title.value, article.abstractText.value)];
      }
    }
    assert articles[..|articles|] == articles;
  }

  const NoArticlesText := "No articles found for your query."
  const NoAbstractsText := "No abstracts found."
  const ErrorPrefix := "Error fetching PubMed data: "

  /**
   * The tool's text for the collected entries: the fallback when there are
   * none; otherwise every entry in order, each at its place in the text, a
   * line break between neighbours, and nothing after the last entry.
   */
  function Summary(results: seq<string>): (r: string)
    ensures results == [] ==> r == NoAbstractsText
    ensures results != [] ==>
              forall k :: 0 <= k < |results| ==>
                var off := FieldOffset(results, "\n", k);
                off + |results[k]| <= |r| && r[off..off + |results[k]|] == results[k]
    ensures results != [] ==>
              forall k :: 0 <= k < |results| - 1 ==>
                var end := FieldOffset(results, "\n", k) + |results[k]|;
                end < |r| && r[end] == '\n'
    ensures results != [] ==> |r| == FieldOffset(results, "\n", |results| - 1) + |results[|results| - 1]|
  {
    if results == [] then NoAbstractsText
    else
      JoinLayout(results, '\n');
      assert "\n" == ['\n'];
      Join(results, "\n")
  }

  /**
   * `disease_diagnoser`: every failure on the way becomes the error text;
   * no ids means no fetch and the no-articles text; otherwise the summary of
   * the fetched articles.
   */
  method DiseaseDiagnoser(query: string, search: HttpGet -> Result<SearchResult, string>,
                          fetch: HttpGet -> Result<seq<Article>, string>)
    returns (text: string)
    ensures search(SearchRequest(query)).Failure? ==> text == ErrorPrefix + search(SearchRequest(query)).error
    ensures search(SearchRequest(query)).Success? ==>
              var ids := search(SearchRequest(query)).value.idlist.GetOr([]);
              (ids == [] ==> text == NoArticlesText)
              && (ids != [] && fetch(FetchRequest(ids)).Failure? ==>
                    text == ErrorPrefix + fetch(FetchRequest(ids)).error)
              && (ids != [] && fetch(FetchRequest(ids)).Success? ==>
                    text == Summary(Entries(fetch(FetchRequest(ids)).value)))
  {
    var found := search(SearchRequest(query));
    if found.Failure? {
      return ErrorPrefix + found.error;
    }
    var pmids := found.value.idlist.GetOr([]);
    if pmids == [] {
      return NoArticlesText;
    }
    var fetched := fetch(FetchRequest(pmids));
    if fetched.Failure? {
      return ErrorPrefix + fetched.error;
    }
    var results := CollectAbstracts(fetched.value);
    text := if results == [] then NoAbstractsText else Join(results, "\n");
  }

  /** There are no entries exactly when no article is complete. */
  lemma {:induction false} EntriesEmptyIff(articles: seq<Article>)
    ensures Entries(articles) == [] <==> forall i :: 0 <= i < |articles| ==> !Complete(articles[i])
  {
    if articles != [] {
      var init := articles[..|articles| - 1];
      EntriesEmptyIff(init);
      if Entries(articles) == [] {
        forall i | 0 <= i < |articles| ensures !Complete(articles[i]) {
          if i < |init| { assert articles[i] == init[i]; }
        }
      } else if Entries(init) != [] {
        var i :| 0 <= i < |init| && Complete(init[i]);
        assert articles[i] == init[i];
      }
    }
  }

  /** The summary is the fallback text exactly when no article is complete. */
  lemma SummaryFallbackIff(articles: seq<Article>)
    ensures Summary(Entries(articles)) == NoAbstractsText
            <==> forall i :: 0 <= i < |articles| ==> !Complete(articles[i])
  {
    var entries := Entries(articles);
    EntriesEmptyIff(articles);
    if entries != [] {
      EntriesOfCompleteArticles(articles);
      assert entries[0] in entries;
      var a :| a in articles && Complete(a) && entries[0] == Entry(a.title.value, a.abstractText.value);
      assert entries[0][0] == Memo[0];
      JoinStartsWithFirst(entries, "\n");
      assert NoAbstractsText[0] == 'N';
    }
  }

  /** A join starts with the first character of its first part. */
  lemma JoinStartsWithFirst(parts: seq<string>, sep: string)
    requires parts != [] && parts[0] != []
    ensures Join(parts, sep) != [] && Join(parts, sep)[0] == parts[0][0]
  {
  }
}
