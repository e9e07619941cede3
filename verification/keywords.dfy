/**
 * `get_jd_keywords` of src/embeddings.py after its two regular
 * expressions: the matches are inputs, and the model covers the
 * deduplication, the stopword and length filter and the cap at 20.
 */
module Keywords {
  import opened Text
  import opened OrderedMaps
  import opened Metadata

  const MaxKeywords: nat := 20

  /** The twelve common words dropped from the keywords. */
  const Stopwords: set<string> := {"the", "and", "for", "with", "this", "that", "from", "will", "can", "are", "our", "your"}

  /** `len(w) > 2 and w.lower() not in stopwords` */
  predicate Keep(w: string) {
    |w| > 2 && Lower(w) !in Stopwords
  }

  predicate IsJdChunk(e: Entry) {
    e.kind == JobDescription
  }

  /** The text the patterns are matched against: the job-description chunks joined by spaces. */
  function JdText(md: seq<Entry>): string {
    Join(Texts(Filter(md, IsJdChunk)), " ")
  }

  /**
   * `get_jd_keywords`: `capitalized` and `tech` stand for the two `re.findall`
   * calls. Set iteration order is taken to be first-appearance order.
   */
  function JdKeywords(md: seq<Entry>, capitalized: string -> seq<string>, tech: string -> seq<string>): seq<string> {
    if Filter(md, IsJdChunk) == [] then []
    else
      var text := JdText(md);
      var all := Dedup(capitalized(text) + tech(text));
      Prefix(Dedup(Filter(all, Keep)), MaxKeywords)
  }

  /** No job-description chunk, no keywords. */
  lemma NoJdNoKeywords(md: seq<Entry>, capitalized: string -> seq<string>, tech: string -> seq<string>)
    requires forall i :: 0 <= i < |md| ==> md[i].kind != JobDescription
    ensures JdKeywords(md, capitalized, tech) == []
  {
    FilterSpec(md, IsJdChunk);
    if Filter(md, IsJdChunk) != [] {
      var e := Filter(md, IsJdChunk)[0];
      assert e in Filter(md, IsJdChunk);
    }
  }

  /**
   * The keywords: at most 20, none twice, each a match of one of the
   * patterns that is longer than two characters and not a stopword; when at
   * most 20 distinct matches qualify, every one of them is returned.
   */
  lemma KeywordsSpec(md: seq<Entry>, capitalized: string -> seq<string>, tech: string -> seq<string>, w: string)
    ensures var r := JdKeywords(md, capitalized, tech);
      && |r| <= MaxKeywords
      && Distinct(r)
      && (w in r ==> Keep(w) && w in capitalized(JdText(md)) + tech(JdText(md)))
    ensures var terms := capitalized(JdText(md)) + tech(JdText(md));
      (Filter(md, IsJdChunk) != [] && |Filter(Dedup(terms), Keep)| <= MaxKeywords && w in terms && Keep(w))
      ==> w in JdKeywords(md, capitalized, tech)
  {
    var text := JdText(md);
    var terms := capitalized(text) + tech(text);
    var all := Dedup(terms);
    DedupSpec(terms);
    FilterSpec(all, Keep);
    var kept := Filter(all, Keep);
    DedupOfDistinct(kept);
  }
}
