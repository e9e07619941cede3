/**
 * The index store of src/embeddings.py: the module globals `index`,
 * `metadata` and `job_description_embedding`, the three files they are
 * persisted to, and the operations that build, reload and search them.
 * The sentence encoder and the vector index's ranking are oracles.
 */
module Corpus {
  import opened Wrappers
  import opened Text
  import opened OrderedMaps
  import opened Metadata
  import opened Chunker
  import opened Retrieval
  import opened Alignment

  const OverviewLength: nat := 1500
  const SectionMaxTokens: nat := 200
  const SectionOverlap: nat := 50
  /** `chunk_text(job_description, max_tokens=250)` keeps the default overlap of 50. */
  const JdMaxTokens: nat := 250
  const JdOverlap: nat := 50

  const NoIndexMessage := "No index found. " + "Please build " + "embeddings first."

  // ---------------------------------------------------------------------
  // The metadata `build_embeddings` emits
  // ---------------------------------------------------------------------

  /** Entry 0: the first 1500 characters of the whole resume. */
  function OverviewEntry(combined: string): Entry {
    Entry("Resume Overview", 0, Prefix(combined, OverviewLength), Overview, None)
  }

  /** The entries for consecutive chunks of one section (or of the job description), numbered from `firstId`. */
  function ChunkEntries(section: string, chunks: seq<string>, kind: ChunkType, firstId: nat): (r: seq<Entry>)
    ensures |r| == |chunks|
  {
    seq(|chunks|, i requires 0 <= i < |chunks| =>
      Entry(section, firstId + i, chunks[i], kind, if kind == Section then Some(|Words(chunks[i])|) else None))
  }

  /** Each section's name paired with its chunks, in iteration order. */
  function SectionChunks(sections: OMap<string, string>): (parts: seq<(string, seq<string>)>)
    ensures |parts| == |sections|
  {
    seq(|sections|, i requires 0 <= i < |sections| => (sections[i].0, Chunks(sections[i].1, SectionMaxTokens, SectionOverlap)))
  }

  /** The entries of the first `n` chunked sections in iteration order, numbered from `firstId`. */
  function PartEntries(parts: seq<(string, seq<string>)>, n: nat, firstId: nat): seq<Entry>
    requires n <= |parts|
    decreases n
  {
    if n == 0 then []
    else
      var prev := PartEntries(parts, n - 1, firstId);
      prev + ChunkEntries(parts[n - 1].0, parts[n - 1].1, Section, firstId + |prev|)
  }

  /** The entries of all sections in iteration order, numbered from `firstId`. */
  function SectionEntries(sections: OMap<string, string>, firstId: nat): seq<Entry> {
    PartEntries(SectionChunks(sections), |sections|, firstId)
  }

  /** `job_description and job_description.strip()` */
  predicate HasJd(jd: Option<string>) {
    jd.Some? && Strip(jd.value) != []
  }

  function JdEntries(jd: Option<string>, firstId: nat): seq<Entry> {
    if HasJd(jd) then ChunkEntries("Job Description", Chunks(jd.value, JdMaxTokens, JdOverlap), JobDescription, firstId)
    else []
  }

  /** The `metadata` list `build_embeddings` writes. */
  function CorpusMetadata(sections: OMap<string, string>, combined: string, jd: Option<string>): seq<Entry> {
    var front := [OverviewEntry(combined)] + SectionEntries(sections, 1);
    front + JdEntries(jd, |front|)
  }

  /** One vector per text, in order. */
  function EmbedAll(encode: string -> Vector, texts: seq<string>): (r: seq<Vector>)
    ensures |r| == |texts| && forall i :: 0 <= i < |texts| ==> r[i] == encode(texts[i])
  {
    seq(|texts|, i requires 0 <= i < |texts| => encode(texts[i]))
  }

  lemma ChunkEntriesSnoc(section: string, chunks: seq<string>, c: nat, kind: ChunkType, firstId: nat)
    requires c < |chunks|
    ensures ChunkEntries(section, chunks[..c + 1], kind, firstId)
      == ChunkEntries(section, chunks[..c], kind, firstId)
         + [Entry(section, firstId + c, chunks[c], kind, if kind == Section then Some(|Words(chunks[c])|) else None)]
  {
  }

  /** The loop step of the section chunking: the entries of one more section follow the overview and the earlier ones. */
  lemma OverviewThenSectionsStep(sections: OMap<string, string>, s: nat, combined: string, md: seq<Entry>)
    requires s < |sections| && md == [OverviewEntry(combined)] + PartEntries(SectionChunks(sections), s, 1)
    ensures md + ChunkEntries(sections[s].0, Chunks(sections[s].1, SectionMaxTokens, SectionOverlap), Section, |md|)
      == [OverviewEntry(combined)] + PartEntries(SectionChunks(sections), s + 1, 1)
  {
    var parts := SectionChunks(sections);
    var prev := PartEntries(parts, s, 1);
    var next := ChunkEntries(parts[s].0, parts[s].1, Section, 1 + |prev|);
    assert parts[s] == (sections[s].0, Chunks(sections[s].1, SectionMaxTokens, SectionOverlap));
    AppendAssoc([OverviewEntry(combined)], prev, next);
  }

  // ---------------------------------------------------------------------
  // Properties of the metadata
  // ---------------------------------------------------------------------

  /** Section entries are numbered consecutively from `firstId`. */
  lemma {:induction false} SectionEntriesIds(parts: seq<(string, seq<string>)>, n: nat, firstId: nat)
    requires n <= |parts|
    ensures forall i :: 0 <= i < |PartEntries(parts, n, firstId)| ==>
      PartEntries(parts, n, firstId)[i].chunkId == firstId + i
    decreases n
  {
    if n > 0 {
      var prev: seq<Entry> := PartEntries(parts, n - 1, firstId);
      var tail: seq<Entry> := ChunkEntries(parts[n - 1].0, parts[n - 1].1, Section, firstId + |prev|);
      assert PartEntries(parts, n, firstId) == prev + tail;
      SectionEntriesIds(parts, n - 1, firstId);
      forall i | 0 <= i < |prev + tail|
        ensures (prev + tail)[i].chunkId == firstId + i
      {
        if i < |prev| {
          assert prev[i].chunkId == firstId + i;
          assert (prev + tail)[i] == prev[i];
        } else {
          var k := i - |prev|;
          assert tail[k].chunkId == firstId + |prev| + k;
          assert (prev + tail)[i] == tail[k];
        }
      }
    }
  }

  /** `chunk_id` is dense: entry i has id i. */
  lemma CorpusIdsDense(sections: OMap<string, string>, combined: string, jd: Option<string>)
    ensures var m := CorpusMetadata(sections, combined, jd);
      forall i :: 0 <= i < |m| ==> m[i].chunkId == i
  {
    SectionEntriesIds(SectionChunks(sections), |sections|, 1);
  }

  /** A well-formed section entry: typed "section", named after one of `names`, 1 to 200 words, carrying its word count. */
  predicate IsSectionEntry(e: Entry, names: seq<string>) {
    && e.kind == Section && e.section in names
    && e.wordCount == Some(|Words(e.text)|)
    && 1 <= |Words(e.text)| <= SectionMaxTokens
  }

  /** A well-formed job-description entry: labelled "Job Description", 1 to 250 words, no word count. */
  predicate IsJdEntry(e: Entry) {
    && e.kind == JobDescription && e.section == "Job Description" && e.wordCount == None
    && 1 <= |Words(e.text)| <= JdMaxTokens
  }

  /** The entry for one chunk of a section is a well-formed entry of that section. */
  lemma SectionChunkEntryAt(name: string, content: string, firstId: nat, i: nat, names: seq<string>)
    requires i < |Chunks(content, SectionMaxTokens, SectionOverlap)| && name in names
    ensures IsSectionEntry(ChunkEntries(name, Chunks(content, SectionMaxTokens, SectionOverlap), Section, firstId)[i], names)
  {
    ChunkWordCount(content, SectionMaxTokens, SectionOverlap, i);
  }

  /** Each entry of the first `n` chunked sections is the entry of the `k`-th chunk of some part `i` before `n`. */
  lemma {:induction false} SectionEntrySource(parts: seq<(string, seq<string>)>, n: nat, firstId: nat, j: nat)
    returns (i: nat, k: nat, f: nat)
    requires n <= |parts| && j < |PartEntries(parts, n, firstId)|
    ensures i < n && k < |parts[i].1|
    ensures PartEntries(parts, n, firstId)[j] == ChunkEntries(parts[i].0, parts[i].1, Section, f)[k]
    decreases n
  {
    var prev := PartEntries(parts, n - 1, firstId);
    var tail := ChunkEntries(parts[n - 1].0, parts[n - 1].1, Section, firstId + |prev|);
    if j < |prev| {
      assert (prev + tail)[j] == prev[j];
      i, k, f := SectionEntrySource(parts, n - 1, firstId, j);
    } else {
      assert (prev + tail)[j] == tail[j - |prev|];
      i, k, f := n - 1, j - |prev|, firstId + |prev|;
    }
  }

  /** Every section entry is a well-formed entry of one of the sections. */
  lemma SectionEntryAt(sections: OMap<string, string>, firstId: nat, j: nat)
    requires j < |SectionEntries(sections, firstId)|
    ensures IsSectionEntry(SectionEntries(sections, firstId)[j], Keys(sections))
  {
    var parts := SectionChunks(sections);
    var i, k, f := SectionEntrySource(parts, |sections|, firstId, j);
    assert parts[i] == (sections[i].0, Chunks(sections[i].1, SectionMaxTokens, SectionOverlap));
    assert Keys(sections)[i] == sections[i].0;
    SectionChunkEntryAt(sections[i].0, sections[i].1, f, k, Keys(sections));
  }

  lemma SectionEntriesShape(sections: OMap<string, string>, firstId: nat)
    ensures forall i :: 0 <= i < |SectionEntries(sections, firstId)| ==>
      IsSectionEntry(SectionEntries(sections, firstId)[i], Keys(sections))
  {
    forall i | 0 <= i < |SectionEntries(sections, firstId)|
      ensures IsSectionEntry(SectionEntries(sections, firstId)[i], Keys(sections))
    {
      SectionEntryAt(sections, firstId, i);
    }
  }

  /** Every job-description entry is well-formed. */
  lemma JdEntriesShape(jd: Option<string>, firstId: nat)
    ensures var es := JdEntries(jd, firstId);
      forall i :: 0 <= i < |es| ==> IsJdEntry(es[i])
  {
    if HasJd(jd) {
      var es := JdEntries(jd, firstId);
      forall i | 0 <= i < |es|
        ensures IsJdEntry(es[i])
      {
        ChunkWordCount(jd.value, JdMaxTokens, JdOverlap, i);
      }
    }
  }

  lemma JdEntryAt(jd: Option<string>, firstId: nat, j: nat)
    requires j < |JdEntries(jd, firstId)|
    ensures IsJdEntry(JdEntries(jd, firstId)[j])
  {
    JdEntriesShape(jd, firstId);
  }

  /**
   * The emission order: the overview first, then section chunks, then
   * job-description chunks, which are present exactly when the job
   * description is not blank.
   */
  lemma CorpusLayout(sections: OMap<string, string>, combined: string, jd: Option<string>)
    ensures var m := CorpusMetadata(sections, combined, jd);
      var s := |SectionEntries(sections, 1)|;
      && |m| >= 1 && m[0] == OverviewEntry(combined)
      && (forall i :: 1 <= i <= s ==> IsSectionEntry(m[i], Keys(sections)))
      && (forall i :: 1 + s <= i < |m| ==> IsJdEntry(m[i]))
      && ((1 + s < |m|) <==> HasJd(jd))
  {
    var se := SectionEntries(sections, 1);
    var front := [OverviewEntry(combined)] + se;
    assert CorpusMetadata(sections, combined, jd) == front + JdEntries(jd, |front|);
    SectionsFollowOverview(sections, combined, jd);
    JdFollowsSections(sections, combined, jd);
    if HasJd(jd) {
      NonBlankHasWords(jd.value);
    }
  }

  lemma SectionsFollowOverview(sections: OMap<string, string>, combined: string, jd: Option<string>)
    ensures var m := CorpusMetadata(sections, combined, jd);
      forall i :: 1 <= i <= |SectionEntries(sections, 1)| ==> IsSectionEntry(m[i], Keys(sections))
  {
    var se := SectionEntries(sections, 1);
    var front := [OverviewEntry(combined)] + se;
    assert CorpusMetadata(sections, combined, jd) == front + JdEntries(jd, |front|);
    var keys := Keys(sections);
    var p := e => IsSectionEntry(e, keys);
    forall i | 0 <= i < |se|
      ensures p(se[i])
    {
      SectionEntryAt(sections, 1, i);
    }
    AllInMiddle(OverviewEntry(combined), se, JdEntries(jd, |front|), p);
  }

  lemma JdFollowsSections(sections: OMap<string, string>, combined: string, jd: Option<string>)
    ensures var m := CorpusMetadata(sections, combined, jd);
      forall i :: 1 + |SectionEntries(sections, 1)| <= i < |m| ==> IsJdEntry(m[i])
  {
    var front := [OverviewEntry(combined)] + SectionEntries(sections, 1);
    var je := JdEntries(jd, |front|);
    assert CorpusMetadata(sections, combined, jd) == front + je;
    forall i | 0 <= i < |je|
      ensures IsJdEntry(je[i])
    {
      JdEntryAt(jd, |front|, i);
    }
    AllInTail(front, je, IsJdEntry);
  }

  /** Every element of the middle part of h + xs + ys satisfies what every element of xs does. */
  lemma AllInMiddle<T>(h: T, xs: seq<T>, ys: seq<T>, p: T -> bool)
    requires forall i :: 0 <= i < |xs| ==> p(xs[i])
    ensures forall i :: 1 <= i <= |xs| ==> p(([h] + xs + ys)[i])
  {
    var m := [h] + xs + ys;
    forall i | 1 <= i <= |xs|
      ensures p(m[i])
    {
      assert m[i] == xs[i - 1];
    }
  }

  /** Every element of the tail part of xs + ys satisfies what every element of ys does. */
  lemma AllInTail<T>(xs: seq<T>, ys: seq<T>, p: T -> bool)
    requires forall i :: 0 <= i < |ys| ==> p(ys[i])
    ensures forall i :: |xs| <= i < |xs + ys| ==> p((xs + ys)[i])
  {
    forall i | |xs| <= i < |xs + ys|
      ensures p((xs + ys)[i])
    {
      assert (xs + ys)[i] == ys[i - |xs|];
    }
  }

  /** `get_relevant_context` searches everything with the job description, and only 'section' chunks without it. */
  function ContextFilter(includeJd: bool): (f: Option<ChunkType>)
    ensures includeJd <==> f.None?
    ensures !includeJd ==> f == Some(Section)
  {
    if includeJd then None else Some(Section)
  }

  // ---------------------------------------------------------------------
  // The store
  // ---------------------------------------------------------------------

  /**
   * The module globals of src/embeddings.py together with the files
   * resume_index.faiss, resume_metadata.json and jd_embedding.npy
   * (`None` = the file does not exist).
   */
  class Store {
    var index: Option<seq<Vector>>
    var metadata: seq<Entry>
    var jdEmbedding: Option<Vector>
    var savedIndex: Option<seq<Vector>>
    var savedMetadata: Option<seq<Entry>>
    var savedJd: Option<Vector>

    /** A fresh process: nothing in memory, whatever files a previous run left. */
    constructor(savedIndex: Option<seq<Vector>>, savedMetadata: Option<seq<Entry>>, savedJd: Option<Vector>)
      ensures this.index == None && this.metadata == [] && this.jdEmbedding == None
      ensures this.savedIndex == savedIndex && this.savedMetadata == savedMetadata && this.savedJd == savedJd
    {
      this.index := None;
      this.metadata := [];
      this.jdEmbedding := None;
      this.savedIndex := savedIndex;
      this.savedMetadata := savedMetadata;
      this.savedJd := savedJd;
    }

    /**
     * The inner loops of `build_embeddings`: append one entry per chunk to
     * `metadata` (numbered on from its length) and the chunk to `chunks`.
     */
    static method AppendChunkEntries(md: seq<Entry>, chunks: seq<string>, section: string, kind: ChunkType, newChunks: seq<string>)
      returns (md': seq<Entry>, chunks': seq<string>)
      requires chunks == Texts(md)
      ensures md' == md + ChunkEntries(section, newChunks, kind, |md|)
      ensures chunks' == Texts(md')
    {
      md', chunks' := md, chunks;
      var chunkId := |md|;
      for c := 0 to |newChunks|
        invariant md' == md + ChunkEntries(section, newChunks[..c], kind, |md|)
        invariant chunks' == Texts(md') && chunkId == |md'|
      {
        ChunkEntriesSnoc(section, newChunks, c, kind, |md|);
        var chunk := newChunks[c];
        var wordCount := if kind == Section then Some(|Words(chunk)|) else None;
        chunks' := chunks' + [chunk];
        md' := md' + [Entry(section, chunkId, chunk, kind, wordCount)];
        chunkId := chunkId + 1;
      }
      assert newChunks[..|newChunks|] == newChunks;
    }

    /**
     * The chunking loops of `build_embeddings`: the overview, then each
     * section's chunks, then the job description's chunks when it is not
     * blank, numbered in order, with the list of their texts.
     */
    static method CollectChunks(sections: OMap<string, string>, combined: string, jd: Option<string>)
      returns (md: seq<Entry>, chunks: seq<string>)
      ensures md == CorpusMetadata(sections, combined, jd)
      ensures chunks == Texts(md)
    {
      md, chunks := CollectSectionChunks(sections, combined);
      if jd.Some? && Strip(jd.value) != [] {
        var jdChunks := ChunkText(jd.value, JdMaxTokens, JdOverlap);
        md, chunks := AppendChunkEntries(md, chunks, "Job Description", JobDescription, jdChunks);
      }
    }

    /** The overview entry, then one entry per chunk of each section, in order. */
    static method CollectSectionChunks(sections: OMap<string, string>, combined: string)
      returns (md: seq<Entry>, chunks: seq<string>)
      ensures md == [OverviewEntry(combined)] + SectionEntries(sections, 1)
      ensures chunks == Texts(md)
    {
      var overview := Prefix(combined, OverviewLength);
      chunks := [overview];
      md := [Entry("Resume Overview", 0, overview, Overview, None)];
      for s := 0 to |sections|
        invariant md == [OverviewEntry(combined)] + PartEntries(SectionChunks(sections), s, 1)
        invariant chunks == Texts(md)
      {
        var name, content := sections[s].0, sections[s].1;
        var sectionChunks := ChunkText(content, SectionMaxTokens, SectionOverlap);
        OverviewThenSectionsStep(sections, s, combined, md);
        md, chunks := AppendChunkEntries(md, chunks, name, Section, sectionChunks);
      }
    }

    /**
     * `build_embeddings`: chunk the sections and the job description, number
     * the chunks, embed one vector per chunk and persist everything; a blank
     * job description clears the in-memory embedding and deletes its file.
     */
    method BuildEmbeddings(sections: OMap<string, string>, combined: string, jd: Option<string>, encode: string -> Vector)
      modifies this
      ensures metadata == CorpusMetadata(sections, combined, jd)
      ensures index == Some(EmbedAll(encode, Texts(metadata)))
      ensures jdEmbedding == if HasJd(jd) then Some(encode(jd.value)) else None
      ensures savedIndex == index && savedMetadata == Some(metadata) && savedJd == jdEmbedding
    {
      var md, chunks := CollectChunks(sections, combined, jd);
      if jd.Some? && Strip(jd.value) != [] {
        jdEmbedding := Some(encode(jd.value));
        savedJd := jdEmbedding;
      } else {
        jdEmbedding := None;
        savedJd := None;
      }
      metadata := md;
      index := Some(EmbedAll(encode, chunks));
      savedIndex := index;
      savedMetadata := Some(md);
    }

    /**
     * `load_or_create_index`: restore the index and metadata when both files
     * exist, and the job-description embedding when its file exists too. A
     * missing embedding file leaves the in-memory embedding as it was.
     */
    method LoadOrCreateIndex() returns (loaded: bool)
      modifies this
      ensures loaded == (savedIndex.Some? && savedMetadata.Some?)
      ensures savedIndex == old(savedIndex) && savedMetadata == old(savedMetadata) && savedJd == old(savedJd)
      ensures loaded ==> index == savedIndex && metadata == savedMetadata.value
      ensures loaded ==> jdEmbedding == if savedJd.Some? then savedJd else old(jdEmbedding)
      ensures !loaded ==> index == old(index) && metadata == old(metadata) && jdEmbedding == old(jdEmbedding)
      ensures old(jdEmbedding).Some? ==> jdEmbedding.Some?
    {
      if savedIndex.Some? && savedMetadata.Some? {
        index := savedIndex;
        metadata := savedMetadata.value;
        if savedJd.Some? {
          jdEmbedding := savedJd;
        }
        return true;
      }
      return false;
    }

    /** An index is in memory, or both index files exist to load it from. */
    predicate Searchable()
      reads this
    {
      index.Some? || (savedIndex.Some? && savedMetadata.Some?)
    }

    /**
     * `search_similar`: load the index if none is in memory (an error if
     * that fails too), rank `SearchK(k, filter)` candidates for the encoded
     * query, and keep the first k entries that pass the guard and the filter.
     */
    method SearchSimilar(query: string, k: nat, filter: Option<ChunkType>, encode: string -> Vector,
                         rank: (seq<Vector>, Vector, nat) -> seq<Candidate>) returns (r: Result<seq<Hit>, string>)
      modifies this
      ensures savedIndex == old(savedIndex) && savedMetadata == old(savedMetadata) && savedJd == old(savedJd)
      ensures old(index).Some? || !old(Searchable()) ==>
        index == old(index) && metadata == old(metadata) && jdEmbedding == old(jdEmbedding)
      ensures old(index).None? && old(Searchable()) ==>
        && index == savedIndex && metadata == savedMetadata.value
        && jdEmbedding == if savedJd.Some? then savedJd else old(jdEmbedding)
      ensures !old(Searchable()) ==> r == Err(NoIndexMessage)
      ensures old(Searchable()) ==> index.Some?
      ensures old(Searchable()) ==> r == Search(rank(index.value, encode(query), SearchK(k, filter)), metadata, filter, k)
    {
      if index.None? {
        var loaded := LoadOrCreateIndex();
        if !loaded {
          return Err(NoIndexMessage);
        }
      }
      var queryEmbedding := encode(query);
      var cands := rank(index.value, queryEmbedding, SearchK(k, filter));
      r := CollectHits(cands, metadata, k, filter);
    }

    /** `get_relevant_context`: search with `ContextFilter(includeJd)` and format the hits. */
    method GetRelevantContext(query: string, k: nat, includeJd: bool, encode: string -> Vector,
                              rank: (seq<Vector>, Vector, nat) -> seq<Candidate>, fmt: real -> string)
      returns (r: Result<string, string>)
      modifies this
      ensures savedIndex == old(savedIndex) && savedMetadata == old(savedMetadata) && savedJd == old(savedJd)
      ensures old(index).Some? || !old(Searchable()) ==>
        index == old(index) && metadata == old(metadata) && jdEmbedding == old(jdEmbedding)
      ensures old(index).None? && old(Searchable()) ==>
        && index == savedIndex && metadata == savedMetadata.value
        && jdEmbedding == if savedJd.Some? then savedJd else old(jdEmbedding)
      ensures !old(Searchable()) ==> r == Err(NoIndexMessage)
      ensures old(Searchable()) ==> index.Some?
      ensures old(Searchable()) ==>
        var found := Search(rank(index.value, encode(query), SearchK(k, ContextFilter(includeJd))),
                            metadata, ContextFilter(includeJd), k);
        r == if found.Ok? then Ok(ContextString(found.value, fmt)) else Err(found.error)
    {
      var filter := ContextFilter(includeJd);
      var results := SearchSimilar(query, k, filter, encode, rank);
      if results.Err? {
        return Err(results.error);
      }
      var context := FormatContext(results.value, fmt);
      return Ok(context);
    }

    /**
     * `compare_resume_to_jd`: nothing without a job-description embedding or
     * without section/overview chunks; otherwise the report of `Compare`.
     */
    method CompareResumeToJd(encode: string -> Vector, score: (Vector, Vector) -> real) returns (r: Option<Report>)
      ensures r == Compare(metadata, jdEmbedding, encode, score)
    {
      var jd := jdEmbedding;
      if jd.None? {
        return None;
      }
      var chunks := ResumeChunks(metadata);
      if chunks == [] {
        return None;
      }
      var sims := Similarities(chunks, jd.value, encode, score);
      var groups := GroupScores(chunks, sims);
      var averages := Averages(groups);
      var overall := Mean(sims) * 100.0;
      r := Some(Report(overall, averages, WeakSections(averages)));
      CompareFound(metadata, jd, encode, score, chunks, sims, r.value);
    }
  }
}
