/**
 * Search post-processing and context formatting of src/embeddings.py
 * (`search_similar` after the vector-index call, `get_relevant_context`
 * after the search): turning ranked candidates into hits, and hits into
 * the context string with one header per section.
 */
module Retrieval {
  import opened Wrappers
  import opened Text
  import opened OrderedMaps
  import opened Metadata

  /** `search_k = k * 3 if filter_type else k`: over-fetch when a type filter will drop candidates. */
  function SearchK(k: nat, filter: Option<ChunkType>): (r: nat)
    ensures filter.None? ==> r == k
    ensures filter.Some? ==> r == 3 * k
  {
    if filter.Some? then k * 3 else k
  }

  /** A candidate names a stored entry of the wanted type. */
  predicate Qualifies(c: Candidate, md: seq<Entry>, filter: Option<ChunkType>) {
    0 <= c.pos < |md| && Matches(md[c.pos], filter)
  }

  /**
   * The corrected reference: the hits the candidates yield before
   * truncation under the guard `0 <= idx < len(metadata)`, one per
   * qualifying candidate, in rank order. `Search` below keeps the guard as
   * the source writes it; the two agree when no position is negative.
   */
  function Hits(cands: seq<Candidate>, md: seq<Entry>, filter: Option<ChunkType>): seq<Hit>
    decreases |cands|
  {
    if cands == [] then []
    else
      var prev := Hits(cands[..|cands| - 1], md, filter);
      var c := cands[|cands| - 1];
      if Qualifies(c, md, filter) then prev + [Hit(md[c.pos], c.score)] else prev
  }

  lemma HitsSnoc(cands: seq<Candidate>, i: nat, md: seq<Entry>, filter: Option<ChunkType>)
    requires i < |cands|
    ensures Hits(cands[..i + 1], md, filter)
      == Hits(cands[..i], md, filter)
         + (if Qualifies(cands[i], md, filter) then [Hit(md[cands[i].pos], cands[i].score)] else [])
  {
    assert cands[..i + 1][..i] == cands[..i];
  }

  /** The hits of a prefix of the candidates are a prefix of the hits. */
  lemma {:induction false} HitsOfPrefix(cands: seq<Candidate>, j: nat, md: seq<Entry>, filter: Option<ChunkType>)
    requires j <= |cands|
    ensures Hits(cands[..j], md, filter) <= Hits(cands, md, filter)
    decreases |cands|
  {
    if j == |cands| {
      assert cands[..j] == cands;
    } else {
      var init := cands[..|cands| - 1];
      HitsOfPrefix(init, j, md, filter);
      assert init[..j] == cands[..j];
    }
  }

  lemma PrefixOfLonger<T>(a: seq<T>, b: seq<T>, k: nat)
    requires a <= b && k <= |a|
    ensures Prefix(a, k) == Prefix(b, k)
  {
  }

  /** Each hit is the entry at a qualifying candidate's position, scored with that candidate's score. */
  predicate FromCandidate(h: Hit, cands: seq<Candidate>, md: seq<Entry>, filter: Option<ChunkType>) {
    exists i :: 0 <= i < |cands| && Qualifies(cands[i], md, filter)
      && h == Hit(md[cands[i].pos], cands[i].score)
  }

  /** Every hit comes from a qualifying candidate, so it has the wanted type. */
  lemma {:induction false} HitsSound(cands: seq<Candidate>, md: seq<Entry>, filter: Option<ChunkType>)
    ensures var hs := Hits(cands, md, filter);
      forall t :: 0 <= t < |hs| ==> FromCandidate(hs[t], cands, md, filter) && Matches(hs[t].entry, filter)
    decreases |cands|
  {
    if cands != [] {
      var n := |cands|;
      var init := cands[..n - 1];
      HitsSound(init, md, filter);
      var prev := Hits(init, md, filter);
      var hs := Hits(cands, md, filter);
      assert hs == prev + (if Qualifies(cands[n - 1], md, filter) then [Hit(md[cands[n - 1].pos], cands[n - 1].score)] else []);
      forall t | 0 <= t < |hs|
        ensures FromCandidate(hs[t], cands, md, filter) && Matches(hs[t].entry, filter)
      {
        if t < |prev| {
          assert 0 <= t < |Hits(init, md, filter)|;
          assert hs[t] == prev[t] && FromCandidate(prev[t], init, md, filter);
          var i :| 0 <= i < |init| && Qualifies(init[i], md, filter) && prev[t] == Hit(md[init[i].pos], init[i].score);
          assert cands[i] == init[i];
        } else {
          assert hs[t] == Hit(md[cands[n - 1].pos], cands[n - 1].score);
        }
      }
    }
  }

  /** Every qualifying candidate yields a hit. */
  lemma {:induction false} HitsComplete(cands: seq<Candidate>, md: seq<Entry>, filter: Option<ChunkType>, i: nat)
    requires i < |cands| && Qualifies(cands[i], md, filter)
    ensures Hit(md[cands[i].pos], cands[i].score) in Hits(cands, md, filter)
    decreases |cands|
  {
    var n := |cands|;
    var init := cands[..n - 1];
    if i < n - 1 {
      assert init[i] == cands[i];
      HitsComplete(init, md, filter, i);
    }
  }

  /**
   * With the corrected guard, distinct candidate positions give distinct
   * hits: when every entry's `chunk_id` is its position and the index
   * returns each stored vector at most once, no entry is returned twice.
   */
  lemma {:induction false} HitsDistinct(cands: seq<Candidate>, md: seq<Entry>, filter: Option<ChunkType>)
    requires forall p :: 0 <= p < |md| ==> md[p].chunkId == p
    requires forall i, j :: 0 <= i < j < |cands| && cands[i].pos >= 0 ==> cands[i].pos != cands[j].pos
    ensures var hs := Hits(cands, md, filter);
      forall s, t :: 0 <= s < t < |hs| ==> hs[s].entry != hs[t].entry
    decreases |cands|
  {
    if cands != [] {
      var n := |cands|;
      var init := cands[..n - 1];
      HitsDistinct(init, md, filter);
      HitsSound(init, md, filter);
      var prev := Hits(init, md, filter);
      var hs := Hits(cands, md, filter);
      var c := cands[n - 1];
      if Qualifies(c, md, filter) {
        assert hs == prev + [Hit(md[c.pos], c.score)];
        forall s, t | 0 <= s < t < |hs|
          ensures hs[s].entry != hs[t].entry
        {
          if t == |prev| {
            assert 0 <= s < |Hits(init, md, filter)|;
            assert hs[s] == prev[s] && FromCandidate(prev[s], init, md, filter);
            var i :| 0 <= i < |init| && Qualifies(init[i], md, filter) && prev[s] == Hit(md[init[i].pos], init[i].score);
            assert cands[i] == init[i];
            assert hs[s].entry.chunkId == init[i].pos != c.pos == hs[t].entry.chunkId;
          } else {
            assert 0 <= s < t < |Hits(init, md, filter)|;
            assert hs[s] == prev[s] && hs[t] == prev[t];
          }
        }
      } else {
        assert hs == prev;
      }
    }
  }

  // ---------------------------------------------------------------------
  // The result loop of search_similar, with its guard as written
  // ---------------------------------------------------------------------

  /** Python's `s[i]`: a negative index counts from the end; `None` is an IndexError. */
  function PyIndex<T>(s: seq<T>, i: int): (r: Option<T>)
    ensures 0 <= i < |s| ==> r == Some(s[i])
    ensures -|s| <= i < 0 ==> r == Some(s[|s| + i])
    ensures r.None? <==> !(-|s| <= i < |s|)
  {
    if 0 <= i < |s| then Some(s[i]) else if -|s| <= i < 0 then Some(s[|s| + i]) else None
  }

  /**
   * What one candidate does behind `if idx < len(metadata): metadata[idx]`:
   * it is skipped, it reads an entry (the FAISS padding -1 reads the last
   * one), or it raises an IndexError.
   */
  datatype Read = Skipped | Found(entry: Entry) | Raised

  function ReadAt(c: Candidate, md: seq<Entry>): (r: Read)
    ensures r.Found? ==> r.entry in md
    ensures 0 <= c.pos < |md| ==> r == Found(md[c.pos])
    ensures r.Raised? <==> c.pos < -|md|
  {
    if c.pos >= |md| then Skipped
    else
      match PyIndex(md, c.pos)
      case None => Raised
      case Some(e) => Found(e)
  }

  /** The state of the result loop: still walking, left by the `break`, or left by an IndexError. */
  datatype Scan = Scanning(hits: seq<Hit>) | Stopped(hits: seq<Hit>) | Failed

  /** One iteration of the result loop. */
  function Step(s: Scan, c: Candidate, md: seq<Entry>, filter: Option<ChunkType>, k: nat): Scan {
    if !s.Scanning? then s
    else
      match ReadAt(c, md)
      case Skipped => s
      case Raised => Failed
      case Found(e) =>
        var hits := if Matches(e, filter) then s.hits + [Hit(e, c.score)] else s.hits;
        if |hits| >= k then Stopped(hits) else Scanning(hits)
  }

  /** The loop state after the given candidates. */
  function ScanAll(cands: seq<Candidate>, md: seq<Entry>, filter: Option<ChunkType>, k: nat): Scan
    decreases |cands|
  {
    if cands == [] then Scanning([])
    else Step(ScanAll(cands[..|cands| - 1], md, filter, k), cands[|cands| - 1], md, filter, k)
  }

  const IndexErrorMessage := "list index out of range"

  /** What `search_similar` returns for the ranked candidates: `results[:k]`, or the IndexError. */
  function Search(cands: seq<Candidate>, md: seq<Entry>, filter: Option<ChunkType>, k: nat): Result<seq<Hit>, string> {
    match ScanAll(cands, md, filter, k)
    case Failed => Err(IndexErrorMessage)
    case Scanning(hits) => Ok(Prefix(hits, k))
    case Stopped(hits) => Ok(Prefix(hits, k))
  }

  lemma ScanSnoc(cands: seq<Candidate>, i: nat, md: seq<Entry>, filter: Option<ChunkType>, k: nat)
    requires i < |cands|
    ensures ScanAll(cands[..i + 1], md, filter, k) == Step(ScanAll(cands[..i], md, filter, k), cands[i], md, filter, k)
  {
    assert cands[..i + 1][..i] == cands[..i];
  }

  /** Once the loop has been left, later candidates change nothing. */
  lemma {:induction false} ScanSettled(cands: seq<Candidate>, md: seq<Entry>, filter: Option<ChunkType>, k: nat, j: nat)
    requires j <= |cands| && !ScanAll(cands[..j], md, filter, k).Scanning?
    ensures ScanAll(cands, md, filter, k) == ScanAll(cands[..j], md, filter, k)
    decreases |cands|
  {
    if j == |cands| {
      assert cands[..j] == cands;
    } else {
      var init := cands[..|cands| - 1];
      assert init[..j] == cands[..j];
      ScanSettled(init, md, filter, k, j);
    }
  }

  /**
   * The loop of `search_similar`: walk the candidates, read the entry of
   * each one that passes the guard `idx < len(metadata)`, keep it when it
   * passes the type filter, stop once k are kept, return the first k.
   */
  method CollectHits(cands: seq<Candidate>, md: seq<Entry>, k: nat, filter: Option<ChunkType>)
    returns (r: Result<seq<Hit>, string>)
    ensures r == Search(cands, md, filter, k)
  {
    var results := [];
    var i := 0;
    while i < |cands|
      invariant 0 <= i <= |cands|
      invariant ScanAll(cands[..i], md, filter, k) == Scanning(results)
    {
      var idx := cands[i].pos;
      ScanSnoc(cands, i, md, filter, k);
      if idx < |md| {
        var read := PyIndex(md, idx);
        if read.None? {
          ScanSettled(cands, md, filter, k, i + 1);
          return Err(IndexErrorMessage);
        }
        var entry := read.value;
        if Matches(entry, filter) {
          results := results + [Hit(entry, cands[i].score)];
        }
        if |results| >= k {
          ScanSettled(cands, md, filter, k, i + 1);
          return Ok(Prefix(results, k));
        }
      }
      i := i + 1;
    }
    assert cands[..i] == cands;
    return Ok(Prefix(results, k));
  }

  /** A hit copies the entry some candidate read, with that candidate's score. */
  predicate ReadFrom(h: Hit, cands: seq<Candidate>, md: seq<Entry>) {
    exists i :: 0 <= i < |cands| && ReadAt(cands[i], md) == Found(h.entry) && h.similarity == cands[i].score
  }

  lemma {:induction false} ScanSound(cands: seq<Candidate>, md: seq<Entry>, filter: Option<ChunkType>, k: nat)
    ensures var s := ScanAll(cands, md, filter, k);
      !s.Failed? ==> forall t :: 0 <= t < |s.hits| ==> ReadFrom(s.hits[t], cands, md) && Matches(s.hits[t].entry, filter)
    ensures ScanAll(cands, md, filter, k).Failed? ==> exists i :: 0 <= i < |cands| && cands[i].pos < -|md|
    decreases |cands|
  {
    if cands != [] {
      var n := |cands|;
      var init := cands[..n - 1];
      ScanSound(init, md, filter, k);
      var prev := ScanAll(init, md, filter, k);
      var s := ScanAll(cands, md, filter, k);
      var c := cands[n - 1];
      assert s == Step(prev, c, md, filter, k);
      if s.Failed? {
        if prev.Failed? {
          var i :| 0 <= i < |init| && init[i].pos < -|md|;
          assert cands[i] == init[i];
        } else {
          assert ReadAt(c, md).Raised?;
        }
      } else {
        assert !prev.Failed?;
        var grown := prev.Scanning? && ReadAt(c, md).Found? && Matches(ReadAt(c, md).entry, filter);
        assert s.hits == prev.hits + (if grown then [Hit(ReadAt(c, md).entry, c.score)] else []);
        forall t | 0 <= t < |s.hits|
          ensures ReadFrom(s.hits[t], cands, md) && Matches(s.hits[t].entry, filter)
        {
          if t < |prev.hits| {
            assert s.hits[t] == prev.hits[t];
            assert 0 <= t < |ScanAll(init, md, filter, k).hits|;
            var i :| 0 <= i < |init| && ReadAt(init[i], md) == Found(prev.hits[t].entry) && prev.hits[t].similarity == init[i].score;
            assert cands[i] == init[i];
          } else {
            assert s.hits[t] == Hit(ReadAt(c, md).entry, c.score);
          }
        }
      }
    }
  }

  /**
   * What the search returns: at most k hits, each a copy of a stored entry
   * that some candidate read, with that candidate's score and of the wanted
   * type. It raises only when a candidate position lies before the start of
   * the metadata (-1 with no metadata at all).
   */
  lemma SearchSound(cands: seq<Candidate>, md: seq<Entry>, filter: Option<ChunkType>, k: nat)
    ensures var r := Search(cands, md, filter, k);
      r.Ok? ==> |r.value| <= k && forall t :: 0 <= t < |r.value| ==>
        r.value[t].entry in md && ReadFrom(r.value[t], cands, md) && Matches(r.value[t].entry, filter)
    ensures Search(cands, md, filter, k).Err? ==> exists i :: 0 <= i < |cands| && cands[i].pos < -|md|
  {
    ScanSound(cands, md, filter, k);
    var s := ScanAll(cands, md, filter, k);
    if !s.Failed? {
      var r := Prefix(s.hits, k);
      forall t | 0 <= t < |r|
        ensures r[t].entry in md && ReadFrom(r[t], cands, md) && Matches(r[t].entry, filter)
      {
        assert r[t] == s.hits[t];
        var i :| 0 <= i < |cands| && ReadAt(cands[i], md) == Found(r[t].entry) && r[t].similarity == cands[i].score;
      }
    }
  }

  lemma {:induction false} ScanWithoutPadding(cands: seq<Candidate>, md: seq<Entry>, filter: Option<ChunkType>, k: nat)
    requires forall i :: 0 <= i < |cands| ==> cands[i].pos >= 0
    ensures var s := ScanAll(cands, md, filter, k);
      || s == Scanning(Hits(cands, md, filter))
      || (s.Stopped? && s.hits <= Hits(cands, md, filter) && |s.hits| >= k)
    decreases |cands|
  {
    if cands != [] {
      var n := |cands|;
      var init := cands[..n - 1];
      ScanWithoutPadding(init, md, filter, k);
      var c := cands[n - 1];
      assert Hits(cands, md, filter)
        == Hits(init, md, filter) + (if Qualifies(c, md, filter) then [Hit(md[c.pos], c.score)] else []);
    }
  }

  /**
   * When the index returns only real positions (no padding), the search as
   * written returns exactly the first k qualifying hits.
   */
  lemma SearchWithoutPadding(cands: seq<Candidate>, md: seq<Entry>, filter: Option<ChunkType>, k: nat)
    requires forall i :: 0 <= i < |cands| ==> cands[i].pos >= 0
    ensures Search(cands, md, filter, k) == Ok(Prefix(Hits(cands, md, filter), k))
  {
    ScanWithoutPadding(cands, md, filter, k);
    var s := ScanAll(cands, md, filter, k);
    if s.Stopped? {
      PrefixOfLonger(s.hits, Hits(cands, md, filter), k);
    }
  }

  /** The score FAISS pads an inner-product search with: minus the largest 32-bit float. */
  const PaddingScore: real := -340282346638528859811704183484516925440.0

  /**
   * Two stored chunks, a section filter and k = 2: the index is asked for 6
   * candidates, has only 2 vectors and pads with -1. As written, the padding
   * returns the last chunk a second time; with the corrected guard it is
   * returned once.
   */
  lemma PaddingDuplicatesLastEntry()
    ensures var e0 := Entry("Resume Overview", 0, "Jane Doe", Overview, None);
      var e1 := Entry("Skills", 1, "Python", Section, Some(1));
      var pad := Candidate(-1, PaddingScore);
      var cands := [Candidate(1, 0.75), Candidate(0, 0.25), pad, pad, pad, pad];
      && |cands| == SearchK(2, Some(Section))
      && Search(cands, [e0, e1], Some(Section), 2) == Ok([Hit(e1, 0.75), Hit(e1, PaddingScore)])
      && Prefix(Hits(cands, [e0, e1], Some(Section)), 2) == [Hit(e1, 0.75)]
  {
    var e0 := Entry("Resume Overview", 0, "Jane Doe", Overview, None);
    var e1 := Entry("Skills", 1, "Python", Section, Some(1));
    var pad := Candidate(-1, PaddingScore);
    var cands := [Candidate(1, 0.75), Candidate(0, 0.25), pad, pad, pad, pad];
    PaddingReadAsLast(cands, [e0, e1]);
    PaddingDropped(cands, [e0, e1]);
  }

  // As written: the padding row reads md[-1], the last entry, and fills the second slot.
  lemma PaddingReadAsLast(cands: seq<Candidate>, md: seq<Entry>)
    requires md == [Entry("Resume Overview", 0, "Jane Doe", Overview, None), Entry("Skills", 1, "Python", Section, Some(1))]
    requires |cands| >= 3 && cands[..3] == [Candidate(1, 0.75), Candidate(0, 0.25), Candidate(-1, PaddingScore)]
    ensures Search(cands, md, Some(Section), 2) == Ok([Hit(md[1], 0.75), Hit(md[1], PaddingScore)])
  {
    var f := Some(Section);
    var h1, h2 := Hit(md[1], 0.75), Hit(md[1], PaddingScore);
    assert cands[..0] == [];
    ScanSnoc(cands, 0, md, f, 2);
    assert ScanAll(cands[..1], md, f, 2) == Scanning([h1]);
    ScanSnoc(cands, 1, md, f, 2);
    assert !Matches(md[0], f);
    assert ScanAll(cands[..2], md, f, 2) == Scanning([h1]);
    ScanSnoc(cands, 2, md, f, 2);
    assert PyIndex(md, -1) == Some(md[1]);
    assert [h1] + [h2] == [h1, h2];
    assert ScanAll(cands[..3], md, f, 2) == Stopped([h1, h2]);
    ScanSettled(cands, md, f, 2, 3);
    assert Prefix([h1, h2], 2) == [h1, h2];
  }

  // Corrected: the padding rows are dropped, leaving the one true hit.
  lemma PaddingDropped(cands: seq<Candidate>, md: seq<Entry>)
    requires md == [Entry("Resume Overview", 0, "Jane Doe", Overview, None), Entry("Skills", 1, "Python", Section, Some(1))]
    requires cands == [Candidate(1, 0.75), Candidate(0, 0.25)] + seq(4, _ => Candidate(-1, PaddingScore))
    ensures Prefix(Hits(cands, md, Some(Section)), 2) == [Hit(md[1], 0.75)]
  {
    var f := Some(Section);
    var h1 := Hit(md[1], 0.75);
    HitsSnoc(cands, 0, md, f);
    HitsSnoc(cands, 1, md, f);
    HitsSnoc(cands, 2, md, f);
    HitsSnoc(cands, 3, md, f);
    HitsSnoc(cands, 4, md, f);
    HitsSnoc(cands, 5, md, f);
    assert cands[..6] == cands;
    assert Hits(cands, md, f) == [h1];
    assert Prefix([h1], 2) == [h1];
  }

  // ---------------------------------------------------------------------
  // The context string
  // ---------------------------------------------------------------------

  /** One element of `context_parts`: a section header or a chunk's text. */
  datatype Part = Header(section: string, similarity: real) | Body(section: string, text: string)

  /** The sections the hits belong to. */
  function SectionsOf(hits: seq<Hit>): set<string>
    decreases |hits|
  {
    if hits == [] then {} else SectionsOf(hits[..|hits| - 1]) + {hits[|hits| - 1].entry.section}
  }

  /**
   * `context_parts`: each hit's text, preceded by a header for its section
   * when the section has not been seen before.
   */
  function Layout(hits: seq<Hit>): seq<Part>
    decreases |hits|
  {
    if hits == [] then []
    else
      var prev := hits[..|hits| - 1];
      var h := hits[|hits| - 1];
      Layout(prev)
      + (if h.entry.section in SectionsOf(prev) then [] else [Header(h.entry.section, h.similarity)])
      + [Body(h.entry.section, h.entry.text)]
  }

  /** `f"\n--- {section} (relevance: {similarity:.2f}) ---"`, the number rendered by `fmt`. */
  function Render(p: Part, fmt: real -> string): string {
    match p
    case Header(s, x) => "\n--- " + s + " (relevance: " + fmt(x) + ") ---"
    case Body(_, t) => t
  }

  function RenderAll(parts: seq<Part>, fmt: real -> string): (r: seq<string>)
    ensures |r| == |parts| && forall i :: 0 <= i < |parts| ==> r[i] == Render(parts[i], fmt)
  {
    seq(|parts|, i requires 0 <= i < |parts| => Render(parts[i], fmt))
  }

  /** What `get_relevant_context` returns for the given hits. */
  function ContextString(hits: seq<Hit>, fmt: real -> string): string {
    Join(RenderAll(Layout(hits), fmt), "\n\n")
  }

  /** The loop of `get_relevant_context` with its `seen_sections` set. */
  method FormatContext(hits: seq<Hit>, fmt: real -> string) returns (context: string)
    ensures context == ContextString(hits, fmt)
  {
    var parts: seq<string> := [];
    var seen: set<string> := {};
    for i := 0 to |hits|
      invariant parts == RenderAll(Layout(hits[..i]), fmt)
      invariant seen == SectionsOf(hits[..i])
    {
      assert hits[..i + 1][..i] == hits[..i];
      var section := hits[i].entry.section;
      var text := hits[i].entry.text;
      if section !in seen {
        parts := parts + ["\n--- " + section + " (relevance: " + fmt(hits[i].similarity) + ") ---"];
        seen := seen + {section};
      }
      parts := parts + [text];
    }
    assert hits[..|hits|] == hits;
    context := Join(parts, "\n\n");
  }

  /** The texts of the body parts, in order. */
  function Bodies(parts: seq<Part>): seq<string> {
    if parts == [] then []
    else (if parts[0].Body? then [parts[0].text] else []) + Bodies(parts[1..])
  }

  /** The sections of the header parts, in order. */
  function HeaderSections(parts: seq<Part>): seq<string> {
    if parts == [] then []
    else (if parts[0].Header? then [parts[0].section] else []) + HeaderSections(parts[1..])
  }

  lemma {:induction false} BodiesAppend(a: seq<Part>, b: seq<Part>)
    ensures Bodies(a + b) == Bodies(a) + Bodies(b)
  {
    if a != [] {
      assert (a + b)[0] == a[0] && (a + b)[1..] == a[1..] + b;
      BodiesAppend(a[1..], b);
    } else {
      assert a + b == b;
    }
  }

  lemma {:induction false} HeaderSectionsAppend(a: seq<Part>, b: seq<Part>)
    ensures HeaderSections(a + b) == HeaderSections(a) + HeaderSections(b)
  {
    if a != [] {
      assert (a + b)[0] == a[0] && (a + b)[1..] == a[1..] + b;
      HeaderSectionsAppend(a[1..], b);
    } else {
      assert a + b == b;
    }
  }

  /** Every hit's text appears once, in rank order. */
  lemma {:induction false} LayoutBodies(hits: seq<Hit>)
    ensures Bodies(Layout(hits)) == seq(|hits|, i requires 0 <= i < |hits| => hits[i].entry.text)
    decreases |hits|
  {
    if hits != [] {
      var n := |hits|;
      var prev := hits[..n - 1];
      var h := hits[n - 1];
      LayoutBodies(prev);
      var lp := Layout(prev);
      var hd: seq<Part> := if h.entry.section in SectionsOf(prev) then [] else [Header(h.entry.section, h.similarity)];
      var body: seq<Part> := [Body(h.entry.section, h.entry.text)];
      assert Layout(hits) == lp + hd + body;
      BodiesAppend(lp + hd, body);
      BodiesAppend(lp, hd);
      assert Bodies(hd) == [];
      assert Bodies(body) == [h.entry.text];
      var texts := seq(|prev|, i requires 0 <= i < |prev| => prev[i].entry.text);
      assert seq(|hits|, i requires 0 <= i < |hits| => hits[i].entry.text) == texts + [h.entry.text];
    }
  }

  /** Each section of the hits gets exactly one header. */
  lemma {:induction false} LayoutHeaders(hits: seq<Hit>)
    ensures Distinct(HeaderSections(Layout(hits)))
    ensures forall s :: s in HeaderSections(Layout(hits)) <==> s in SectionsOf(hits)
    decreases |hits|
  {
    if hits != [] {
      var n := |hits|;
      var prev := hits[..n - 1];
      var h := hits[n - 1];
      var s := h.entry.section;
      LayoutHeaders(prev);
      var lp := Layout(prev);
      var hd: seq<Part> := if s in SectionsOf(prev) then [] else [Header(s, h.similarity)];
      var body: seq<Part> := [Body(s, h.entry.text)];
      assert Layout(hits) == lp + hd + body;
      assert SectionsOf(hits) == SectionsOf(prev) + {s};
      HeaderSectionsAppend(lp + hd, body);
      HeaderSectionsAppend(lp, hd);
      assert HeaderSections(body) == [];
      var hs := HeaderSections(lp);
      if s in SectionsOf(prev) {
        assert HeaderSections(Layout(hits)) == hs;
      } else {
        assert HeaderSections(hd) == [s];
        assert HeaderSections(Layout(hits)) == hs + [s];
        DistinctSnoc(hs, s);
      }
    }
  }

  /** The header of a section comes before every text of that section. */
  lemma {:induction false} LayoutHeaderFirst(hits: seq<Hit>)
    ensures var parts := Layout(hits);
      forall q :: 0 <= q < |parts| && parts[q].Body? ==> parts[q].section in HeaderSections(parts[..q])
    decreases |hits|
  {
    if hits != [] {
      var n := |hits|;
      var prev := hits[..n - 1];
      var h := hits[n - 1];
      var s := h.entry.section;
      LayoutHeaderFirst(prev);
      LayoutHeaders(prev);
      var lp := Layout(prev);
      var hd: seq<Part> := if s in SectionsOf(prev) then [] else [Header(s, h.similarity)];
      var parts := Layout(hits);
      assert parts == lp + hd + [Body(s, h.entry.text)];
      forall q | 0 <= q < |parts| && parts[q].Body?
        ensures parts[q].section in HeaderSections(parts[..q])
      {
        if q < |lp| {
          assert 0 <= q < |Layout(prev)|;
          assert parts[..q] == lp[..q];
          assert parts[q] == lp[q];
        } else {
          assert q == |parts| - 1;
          assert parts[..q] == lp + hd;
          HeaderSectionsAppend(lp, hd);
          if s !in SectionsOf(prev) {
            assert hd[1..] == [];
            assert HeaderSections(hd) == [s];
          }
        }
      }
    }
  }

  /** The similarity of the first hit of a section (the one its header shows). */
  function FirstSimilarity(hits: seq<Hit>, s: string): Option<real>
    decreases |hits|
  {
    if hits == [] then None
    else if hits[0].entry.section == s then Some(hits[0].similarity)
    else FirstSimilarity(hits[1..], s)
  }

  lemma {:induction false} FirstSimilaritySnoc(hits: seq<Hit>, h: Hit, s: string)
    ensures FirstSimilarity(hits + [h], s)
      == if FirstSimilarity(hits, s).Some? then FirstSimilarity(hits, s)
         else if h.entry.section == s then Some(h.similarity) else None
    decreases |hits|
  {
    if hits != [] {
      assert (hits + [h])[1..] == hits[1..] + [h];
      FirstSimilaritySnoc(hits[1..], h, s);
    }
  }

  lemma {:induction false} FirstSimilarityNone(hits: seq<Hit>, s: string)
    ensures FirstSimilarity(hits, s).None? <==> s !in SectionsOf(hits)
    decreases |hits|
  {
    if hits != [] {
      var n := |hits|;
      FirstSimilarityNone(hits[..n - 1], s);
      assert hits == hits[..n - 1] + [hits[n - 1]];
      FirstSimilaritySnoc(hits[..n - 1], hits[n - 1], s);
    }
  }

  /** Each header shows the similarity of its section's first hit. */
  lemma {:induction false} LayoutHeaderScores(hits: seq<Hit>)
    ensures var parts := Layout(hits);
      forall p :: 0 <= p < |parts| && parts[p].Header? ==>
        FirstSimilarity(hits, parts[p].section) == Some(parts[p].similarity)
    decreases |hits|
  {
    if hits != [] {
      var n := |hits|;
      var prev := hits[..n - 1];
      var h := hits[n - 1];
      var s := h.entry.section;
      LayoutHeaderScores(prev);
      LayoutHeaders(prev);
      var lp := Layout(prev);
      var hd: seq<Part> := if s in SectionsOf(prev) then [] else [Header(s, h.similarity)];
      var parts := Layout(hits);
      assert parts == lp + hd + [Body(s, h.entry.text)];
      assert hits == prev + [h];
      forall p | 0 <= p < |parts| && parts[p].Header?
        ensures FirstSimilarity(hits, parts[p].section) == Some(parts[p].similarity)
      {
        FirstSimilaritySnoc(prev, h, parts[p].section);
        if p < |lp| {
          assert 0 <= p < |Layout(prev)|;
          assert parts[p] == lp[p];
        } else {
          assert parts[p] == Header(s, h.similarity);
          FirstSimilarityNone(prev, s);
        }
      }
    }
  }
}
