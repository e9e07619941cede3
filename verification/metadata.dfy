/**
 * The records of the retrieval index (src/embeddings.py): one metadata entry
 * per indexed chunk, the hits a search returns and the candidates the vector
 * index ranks.
 */
module Metadata {
  import opened Wrappers

  /** An embedding vector, as returned by the sentence encoder. */
  type Vector = seq<real>

  /** The `type` field of a metadata entry. */
  datatype ChunkType = Overview | Section | JobDescription

  /** The string stored in the `type` field. */
  function TypeName(t: ChunkType): (s: string)
    ensures s in {"overview", "section", "job_description"}
  {
    match t
    case Overview => "overview"
    case Section => "section"
    case JobDescription => "job_description"
  }

  /**
   * One metadata entry: `section`, `chunk_id`, `text`, `type` and, on section
   * chunks only, `word_count`.
   */
  datatype Entry = Entry(section: string, chunkId: nat, text: string, kind: ChunkType, wordCount: Option<nat>)

  /** A search result: a copy of a metadata entry plus its `similarity`. */
  datatype Hit = Hit(entry: Entry, similarity: real)

  /** One row of the vector index's answer: a position (FAISS pads with -1) and its score. */
  datatype Candidate = Candidate(pos: int, score: real)

  /** The `text` fields of a metadata list, in order. */
  function Texts(m: seq<Entry>): (ts: seq<string>)
    ensures |ts| == |m| && forall i :: 0 <= i < |m| ==> ts[i] == m[i].text
  {
    seq(|m|, i requires 0 <= i < |m| => m[i].text)
  }

  /** `filter_type is None or result['type'] == filter_type` */
  predicate Matches(e: Entry, filter: Option<ChunkType>) {
    filter.None? || e.kind == filter.value
  }
}
