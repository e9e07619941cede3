/**
 * The grouping half of `ai_based_section_detection` in src/resume_parser.py:
 * chunks that are long enough and confidently classified are grouped by
 * their label, and each group becomes a section under the title-cased label.
 * The zero-shot classifier and the split into chunks are parameters.
 */
module AiDetection {
  import opened Wrappers
  import opened Text
  import opened OrderedMaps

  // ---------------------------------------------------------------------
  // AI-based section detection: grouping the classified chunks
  // ---------------------------------------------------------------------

  /** The best label the zero-shot classifier gives a chunk, and its score. */
  datatype Classification = Classification(bestLabel: string, confidence: real)

  /** Chunks whose stripped length is below this are skipped. */
  const MinChunkLength: nat := 20
  /** The classifier sees at most this many characters of a chunk. */
  const ClassifierInputLimit: nat := 500
  /** A chunk is kept only when its best score exceeds this. */
  const MinConfidence: real := 0.3
  /** Chunks of the same label are joined with a blank line. */
  const ChunkSeparator: string := "\n\n"

  /** `len(chunk.strip()) < 20` */
  predicate IsShort(chunk: string) {
    |Strip(chunk)| < MinChunkLength
  }

  /**
   * The (label, chunk) pairs kept from the first n chunks, in chunk order; None when the classifier
   * raised on one of them. `classify` returns None where the classifier raises.
   */
  function Kept(chunks: seq<string>, classify: string -> Option<Classification>, n: nat): Option<seq<(string, string)>>
    requires n <= |chunks|
    decreases n
  {
    if n == 0 then Some([])
    else
      match Kept(chunks, classify, n - 1)
      case None => None
      case Some(prev) =>
        var chunk := chunks[n - 1];
        if IsShort(chunk) then Some(prev)
        else
          match classify(Prefix(chunk, ClassifierInputLimit))
          case None => None
          case Some(c) => if c.confidence > MinConfidence then Some(prev + [(c.bestLabel, chunk)]) else Some(prev)
  }

  /** Each group under its title-cased label, its chunks joined with a blank line. */
  function TitledGroups(groups: OMap<string, seq<string>>): (ps: seq<(string, string)>)
    ensures |ps| == |groups|
    ensures forall i {:trigger ps[i]} :: 0 <= i < |groups| ==> ps[i] == (Title(groups[i].0), Join(groups[i].1, ChunkSeparator))
  {
    seq(|groups|, i requires 0 <= i < |groups| => (Title(groups[i].0), Join(groups[i].1, ChunkSeparator)))
  }

  /** `classified_sections`: the kept chunks appended, one by one, to the list of their label. */
  function Classified(kept: seq<(string, string)>): OMap<string, seq<string>>
    decreases |kept|
  {
    if kept == [] then []
    else Append(Classified(kept[..|kept| - 1]), kept[|kept| - 1].0, kept[|kept| - 1].1)
  }

  /** Classifying one more kept chunk appends it to its label's group. */
  lemma ClassifiedSnoc(kept: seq<(string, string)>, p: (string, string))
    ensures Classified(kept + [p]) == Append(Classified(kept), p.0, p.1)
  {
    assert (kept + [p])[..|kept|] == kept;
  }

  /** The appended lists are the kept chunks grouped by label, in order of each label's first kept chunk. */
  lemma {:induction false} ClassifiedIsGroup(kept: seq<(string, string)>)
    ensures Classified(kept) == Group(Keys(kept), Values(kept))
    decreases |kept|
  {
    if kept != [] {
      ClassifiedIsGroup(kept[..|kept| - 1]);
      GroupPairsLast(kept);
    }
  }

  /** `final_sections`: each group assigned under its title-cased label, in group order. */
  function Finalized(kept: seq<(string, string)>): OMap<string, string> {
    PutAll([], TitledGroups(Classified(kept)))
  }

  /** What `ai_based_section_detection` returns, given the text already split into chunks. */
  function AiSections(available: bool, chunks: seq<string>, classify: string -> Option<Classification>): Option<OMap<string, string>> {
    if !available then None
    else
      match Kept(chunks, classify, |chunks|)
      case None => None
      case Some(kept) => if Finalized(kept) == [] then None else Some(Finalized(kept))
  }

  /** Once the classifier has raised, the rest of the chunks cannot rescue the result. */
  lemma {:induction false} KeptFailurePersists(chunks: seq<string>, classify: string -> Option<Classification>, i: nat, n: nat)
    requires i <= n <= |chunks| && Kept(chunks, classify, i).None?
    ensures Kept(chunks, classify, n).None?
    decreases n
  {
    if n > i {
      KeptFailurePersists(chunks, classify, i, n - 1);
    }
  }

  /** `ai_based_section_detection`, given whether the model loaded, the chunks the text splits into, and the classifier. */
  method AiSectionDetection(available: bool, chunks: seq<string>, classify: string -> Option<Classification>)
    returns (sections: Option<OMap<string, string>>)
    ensures sections == AiSections(available, chunks, classify)
  {
    if !available {
      return None;
    }
    var classified := ClassifyChunks(chunks, classify);
    if classified.None? {
      return None;
    }
    var finalSections := FinalizeGroups(classified.value);
    if finalSections == [] {
      return None;
    }
    return Some(finalSections);
  }

  /**
   * The first loop of `ai_based_section_detection`: the kept chunks grouped by label, or None as soon as
   * the classifier raises.
   */
  method ClassifyChunks(chunks: seq<string>, classify: string -> Option<Classification>)
    returns (classified: Option<OMap<string, seq<string>>>)
    ensures classified.None? <==> Kept(chunks, classify, |chunks|).None?
    ensures classified.Some? ==> classified.value == Classified(Kept(chunks, classify, |chunks|).value)
  {
    var groups: OMap<string, seq<string>> := [];
    ghost var kept: seq<(string, string)> := [];
    for i := 0 to |chunks|
      invariant Kept(chunks, classify, i) == Some(kept)
      invariant groups == Classified(kept)
    {
      var chunk := chunks[i];
      if !IsShort(chunk) {
        var result := classify(Prefix(chunk, ClassifierInputLimit));
        if result.None? {
          KeptFailurePersists(chunks, classify, i + 1, |chunks|);
          return None;
        }
        if result.value.confidence > MinConfidence {
          ClassifiedSnoc(kept, (result.value.bestLabel, chunk));
          groups := Append(groups, result.value.bestLabel, chunk);
          kept := kept + [(result.value.bestLabel, chunk)];
        }
      }
    }
    return Some(groups);
  }

  /** The second loop of `ai_based_section_detection`: each group assigned under its title-cased label. */
  method FinalizeGroups(classified: OMap<string, seq<string>>) returns (finalSections: OMap<string, string>)
    ensures finalSections == PutAll([], TitledGroups(classified))
  {
    finalSections := [];
    for j := 0 to |classified|
      invariant finalSections == PutAll([], TitledGroups(classified)[..j])
    {
      PutAllStep([], TitledGroups(classified), j);
      var name := Title(classified[j].0);
      var content := Join(classified[j].1, ChunkSeparator);
      assert TitledGroups(classified)[j] == (name, content);
      finalSections := Put(finalSections, name, content);
    }
    assert TitledGroups(classified)[..|classified|] == TitledGroups(classified);
  }

  /** The classifier failure that makes the whole detection fail is a failure on a chunk that is not skipped. */
  lemma {:induction false} KeptFails(chunks: seq<string>, classify: string -> Option<Classification>, n: nat)
    requires n <= |chunks|
    ensures Kept(chunks, classify, n).None? <==>
      exists i :: 0 <= i < n && !IsShort(chunks[i]) && classify(Prefix(chunks[i], ClassifierInputLimit)).None?
    decreases n
  {
    if n > 0 {
      KeptFails(chunks, classify, n - 1);
    }
  }

  /** Every kept pair is a long enough chunk, labelled by the classifier with a score above the threshold. */
  lemma {:induction false} KeptSound(chunks: seq<string>, classify: string -> Option<Classification>, n: nat)
    requires n <= |chunks| && Kept(chunks, classify, n).Some?
    ensures forall p :: p in Kept(chunks, classify, n).value ==>
      && p.1 in chunks[..n]
      && !IsShort(p.1)
      && classify(Prefix(p.1, ClassifierInputLimit)).Some?
      && classify(Prefix(p.1, ClassifierInputLimit)).value.bestLabel == p.0
      && classify(Prefix(p.1, ClassifierInputLimit)).value.confidence > MinConfidence
    decreases n
  {
    if n > 0 {
      KeptSound(chunks, classify, n - 1);
      assert chunks[..n] == chunks[..n - 1] + [chunks[n - 1]];
    }
  }

  /** Every long enough chunk the classifier scores above the threshold is kept under its label. */
  lemma {:induction false} KeptComplete(chunks: seq<string>, classify: string -> Option<Classification>, n: nat, i: nat)
    requires i < n <= |chunks| && Kept(chunks, classify, n).Some?
    requires !IsShort(chunks[i])
    requires classify(Prefix(chunks[i], ClassifierInputLimit)).Some?
    requires classify(Prefix(chunks[i], ClassifierInputLimit)).value.confidence > MinConfidence
    ensures (classify(Prefix(chunks[i], ClassifierInputLimit)).value.bestLabel, chunks[i]) in Kept(chunks, classify, n).value
    decreases n
  {
    if i < n - 1 {
      KeptComplete(chunks, classify, n - 1, i);
    }
  }

  /** Each label title-cased. */
  function TitleAll(labels: seq<string>): (ts: seq<string>)
    ensures |ts| == |labels|
    ensures forall i :: 0 <= i < |labels| ==> ts[i] == Title(labels[i])
  {
    seq(|labels|, i requires 0 <= i < |labels| => Title(labels[i]))
  }

  /**
   * The keys of the grouped result: the distinct labels in order of their first kept chunk, title-cased,
   * with titles that coincide merged; there is no key exactly when nothing was kept.
   */
  lemma FinalizedKeys(kept: seq<(string, string)>)
    ensures Keys(Finalized(kept)) == Dedup(TitleAll(Dedup(Keys(kept))))
    ensures Distinct(Keys(Finalized(kept)))
    ensures Finalized(kept) == [] <==> kept == []
  {
    var g := Classified(kept);
    var ps := TitledGroups(g);
    ClassifiedIsGroup(kept);
    PutAllKeys([], ps);
    assert Keys<string, string>([]) + Keys(ps) == Keys(ps);
    GroupKeys(Keys(kept), Values(kept));
    assert Keys(ps) == TitleAll(Keys(g));
    DedupSpec(Keys(ps));
    DedupEmpty(Keys(ps));
    DedupEmpty(Keys(kept));
  }

  /** With the model loaded and no classifier failure, the detection gives None exactly when no chunk is kept. */
  lemma AiNoneWhenNothingKept(chunks: seq<string>, classify: string -> Option<Classification>, kept: seq<(string, string)>)
    requires Kept(chunks, classify, |chunks|) == Some(kept)
    ensures AiSections(true, chunks, classify).None? <==> kept == []
    ensures AiSections(true, chunks, classify).Some? ==> AiSections(true, chunks, classify).value == Finalized(kept)
  {
    FinalizedKeys(kept);
  }

  /**
   * A label no other kept label title-cases alike ends up under its title-cased form, holding its chunks
   * in order joined with a blank line.
   */
  lemma FinalizedValue(kept: seq<(string, string)>, name: string)
    requires name in Keys(kept)
    requires forall l :: l in Keys(kept) && l != name ==> Title(l) != Title(name)
    ensures Get(Finalized(kept), Title(name)) == Some(Join(Select(Keys(kept), Values(kept), name), ChunkSeparator))
  {
    var g := Classified(kept);
    var ps := TitledGroups(g);
    ClassifiedIsGroup(kept);
    GroupKeys(Keys(kept), Values(kept));
    DedupSpec(Keys(kept));
    assert name in Keys(g);
    var i := GetIndex(g, name);
    GroupValues(Keys(kept), Values(kept), name);
    forall j | i < j < |ps|
      ensures ps[j].0 != Title(name)
    {
      assert Keys(g)[j] != Keys(g)[i];
      assert g[j].0 in Keys(g);
    }
    LastValueAt(ps, Title(name), i);
    GetPutAll([], ps, Title(name));
  }
}
