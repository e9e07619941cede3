/**
 * `compare_resume_to_jd` of src/embeddings.py without the encoder: the
 * resume chunks' similarities to the job-description embedding, their
 * overall mean, the per-section means and the weak sections.
 */
module Alignment {
  import opened Wrappers
  import opened OrderedMaps
  import opened Metadata

  /** A section whose mean similarity is below this is weak. */
  const WeakThreshold: real := 0.5

  /** The returned dict: `overall_match`, `section_scores`, `weak_sections`. */
  datatype Report = Report(overallMatch: real, sectionScores: OMap<string, real>, weakSections: seq<string>)

  function Sum(xs: seq<real>): real
    decreases |xs|
  {
    if xs == [] then 0.0 else Sum(xs[..|xs| - 1]) + xs[|xs| - 1]
  }

  /** `np.mean`, only ever applied to non-empty lists here (0 stands in for the empty case). */
  function Mean(xs: seq<real>): real {
    if xs == [] then 0.0 else Sum(xs) / (|xs| as real)
  }

  /** `m['type'] in ['section', 'overview']` */
  predicate IsResumeChunk(e: Entry) {
    e.kind == Section || e.kind == Overview
  }

  /** The section and overview entries, in order. */
  function ResumeChunks(md: seq<Entry>): seq<Entry> {
    Filter(md, IsResumeChunk)
  }

  function SectionNames(chunks: seq<Entry>): (r: seq<string>)
    ensures |r| == |chunks| && forall i :: 0 <= i < |chunks| ==> r[i] == chunks[i].section
  {
    seq(|chunks|, i requires 0 <= i < |chunks| => chunks[i].section)
  }

  /**
   * One similarity per chunk: `score` of the chunk's encoding against the job
   * description's. The `normalize_L2` calls act on temporary copies, so these
   * are the raw scores.
   */
  function Similarities(chunks: seq<Entry>, jd: Vector, encode: string -> Vector, score: (Vector, Vector) -> real): (r: seq<real>)
    ensures |r| == |chunks|
  {
    seq(|chunks|, i requires 0 <= i < |chunks| => score(encode(chunks[i].text), jd))
  }

  /** `{section: np.mean(scores) for section, scores in section_scores.items()}` */
  function Averages(groups: OMap<string, seq<real>>): (r: OMap<string, real>)
    ensures Keys(r) == Keys(groups)
  {
    if groups == [] then []
    else
      var rest := Averages(groups[1..]);
      assert Keys(groups) == [groups[0].0] + Keys(groups[1..]);
      assert Keys([(groups[0].0, Mean(groups[0].1))] + rest) == [groups[0].0] + Keys(rest);
      [(groups[0].0, Mean(groups[0].1))] + rest
  }

  /** `[s for s, score in section_avg_scores.items() if score < 0.5]` */
  function WeakSections(averages: OMap<string, real>): seq<string>
    decreases |averages|
  {
    if averages == [] then []
    else
      var prev := WeakSections(averages[..|averages| - 1]);
      var (s, a) := averages[|averages| - 1];
      if a < WeakThreshold then prev + [s] else prev
  }

  /** What `compare_resume_to_jd` returns for the stored metadata and job-description embedding. */
  function Compare(md: seq<Entry>, jdEmbedding: Option<Vector>, encode: string -> Vector, score: (Vector, Vector) -> real): Option<Report> {
    if jdEmbedding.None? then None
    else
      var chunks := ResumeChunks(md);
      if chunks == [] then None
      else
        var sims := Similarities(chunks, jdEmbedding.value, encode, score);
        var averages := Averages(Group(SectionNames(chunks), sims));
        Some(Report(Mean(sims) * 100.0, averages, WeakSections(averages)))
  }

  /** The report, once the job-description embedding and the resume chunks are there. */
  lemma CompareFound(md: seq<Entry>, jdEmbedding: Option<Vector>, encode: string -> Vector, score: (Vector, Vector) -> real,
                     chunks: seq<Entry>, sims: seq<real>, report: Report)
    requires jdEmbedding.Some? && chunks == ResumeChunks(md) && chunks != []
    requires sims == Similarities(chunks, jdEmbedding.value, encode, score)
    requires report.overallMatch == Mean(sims) * 100.0
    requires report.sectionScores == Averages(Group(SectionNames(chunks), sims))
    requires report.weakSections == WeakSections(report.sectionScores)
    ensures Compare(md, jdEmbedding, encode, score) == Some(report)
  {
    var found := Compare(md, jdEmbedding, encode, score).value;
    assert found.overallMatch == report.overallMatch;
    assert found.sectionScores == report.sectionScores;
    assert found.weakSections == report.weakSections;
  }

  /** The loop of `compare_resume_to_jd` that fills `section_scores`, a dict of lists. */
  method GroupScores(chunks: seq<Entry>, sims: seq<real>) returns (groups: OMap<string, seq<real>>)
    requires |sims| == |chunks|
    ensures groups == Group(SectionNames(chunks), sims)
  {
    var names := SectionNames(chunks);
    groups := [];
    for i := 0 to |chunks|
      invariant groups == Group(names[..i], sims[..i])
    {
      GroupSnoc(names, sims, i);
      var section := chunks[i].section;
      if Get(groups, section).None? {
        NewListThenAppend(groups, section, sims[i]);
        groups := Put(groups, section, []);
      }
      groups := Put(groups, section, GetList(groups, section) + [sims[i]]);
    }
    assert names[..|chunks|] == names && sims[..|chunks|] == sims;
  }

  /** Creating an empty list for a new key and appending to it is one `Append`. */
  lemma NewListThenAppend(groups: OMap<string, seq<real>>, section: string, x: real)
    requires Get(groups, section).None?
    ensures var g := Put(groups, section, []);
      Put(g, section, GetList(g, section) + [x]) == Append(groups, section, x)
  {
    var g := Put(groups, section, []);
    GetPut(groups, section, []);
    var one: seq<real> := [x];
    assert GetList(g, section) + [x] == one;
    assert GetList(groups, section) + [x] == one;
    assert Append(groups, section, x) == Put(groups, section, one);
    PutTwice(groups, section, [], one);
  }

  // ---------------------------------------------------------------------
  // Properties
  // ---------------------------------------------------------------------

  /** The resume chunks are exactly the metadata entries that are not job-description chunks. */
  lemma ResumeChunksSpec(md: seq<Entry>)
    ensures forall e :: e in ResumeChunks(md) <==> e in md && e.kind != JobDescription
  {
    FilterSpec(md, IsResumeChunk);
  }

  /** No report without a job-description embedding or without a section/overview chunk. */
  lemma CompareNone(md: seq<Entry>, jdEmbedding: Option<Vector>, encode: string -> Vector, score: (Vector, Vector) -> real)
    ensures Compare(md, jdEmbedding, encode, score).None?
      <==> jdEmbedding.None? || forall i :: 0 <= i < |md| ==> md[i].kind == JobDescription
  {
    ResumeChunksSpec(md);
    if jdEmbedding.Some? && ResumeChunks(md) == [] {
      forall i | 0 <= i < |md|
        ensures md[i].kind == JobDescription
      {
        assert md[i] in md;
      }
    }
    if jdEmbedding.Some? && ResumeChunks(md) != [] {
      var e := ResumeChunks(md)[0];
      assert e in ResumeChunks(md);
      var i :| 0 <= i < |md| && md[i] == e;
    }
  }

  lemma {:induction false} AveragesGet(groups: OMap<string, seq<real>>, k: string)
    ensures Get(Averages(groups), k) == match Get(groups, k) case None => None case Some(l) => Some(Mean(l))
  {
    if groups != [] && groups[0].0 != k {
      AveragesGet(groups[1..], k);
    }
  }

  /**
   * The section scores: one key per distinct section of the resume chunks,
   * in first-appearance order, mapped to the mean of that section's
   * similarities (never an empty mean).
   */
  lemma SectionScores(chunks: seq<Entry>, sims: seq<real>, s: string)
    requires |sims| == |chunks|
    ensures var averages := Averages(Group(SectionNames(chunks), sims));
      && Keys(averages) == Dedup(SectionNames(chunks))
      && Distinct(Keys(averages))
      && (s in Keys(averages) <==> s in SectionNames(chunks))
      && (s in SectionNames(chunks) ==>
            Select(SectionNames(chunks), sims, s) != []
            && Get(averages, s) == Some(Mean(Select(SectionNames(chunks), sims, s))))
  {
    var names := SectionNames(chunks);
    GroupKeys(names, sims);
    DedupSpec(names);
    if s in names {
      GroupValues(names, sims, s);
      SelectNonEmpty(names, sims, s);
      AveragesGet(Group(names, sims), s);
    }
  }

  /** A weak section is a key whose average is below the threshold, and every such key is listed once. */
  lemma {:induction false} WeakSectionsAt(averages: OMap<string, real>)
    requires Distinct(Keys(averages))
    ensures Distinct(WeakSections(averages))
    ensures forall s :: s in WeakSections(averages) <==>
      exists i :: 0 <= i < |averages| && averages[i].0 == s && averages[i].1 < WeakThreshold
    decreases |averages|
  {
    if averages != [] {
      var n := |averages|;
      var init := averages[..n - 1];
      assert Keys(init) == Keys(averages)[..n - 1];
      WeakSectionsAt(init);
      var last := averages[n - 1];
      forall s
        ensures s in WeakSections(averages) <==>
          exists i :: 0 <= i < |averages| && averages[i].0 == s && averages[i].1 < WeakThreshold
      {
        if s in WeakSections(averages) && s != last.0 {
          assert s in WeakSections(init);
          var i :| 0 <= i < |init| && init[i].0 == s && init[i].1 < WeakThreshold;
          assert averages[i] == init[i];
        }
        if exists i :: 0 <= i < |averages| && averages[i].0 == s && averages[i].1 < WeakThreshold {
          var i :| 0 <= i < |averages| && averages[i].0 == s && averages[i].1 < WeakThreshold;
          if i < n - 1 {
            assert init[i] == averages[i];
          }
        }
      }
      if last.1 < WeakThreshold {
        assert last.0 !in WeakSections(init);
      }
    }
  }

  /**
   * The weak sections are the sections with a mean below 0.5, each listed
   * once, in the order of the section scores.
   */
  lemma WeakSectionsSpec(averages: OMap<string, real>, s: string)
    requires Distinct(Keys(averages))
    ensures Distinct(WeakSections(averages))
    ensures s in WeakSections(averages) <==> exists a :: Get(averages, s) == Some(a) && a < WeakThreshold
  {
    WeakSectionsAt(averages);
    if s in WeakSections(averages) {
      var i :| 0 <= i < |averages| && averages[i].0 == s && averages[i].1 < WeakThreshold;
      GetAt(averages, i);
    }
    if Get(averages, s).Some? && Get(averages, s).value < WeakThreshold {
      var i := GetIndex(averages, s);
    }
  }

  /**
   * Each weak section is a key with an average below the threshold, and the
   * weak sections come in the order of their keys in the section scores.
   */
  lemma {:induction false} WeakSectionsInOrder(averages: OMap<string, real>)
    ensures forall i :: 0 <= i < |WeakSections(averages)| ==>
      exists p :: 0 <= p < |averages| && averages[p].0 == WeakSections(averages)[i] && averages[p].1 < WeakThreshold
    ensures forall i, j :: 0 <= i < j < |WeakSections(averages)| ==>
      exists p, q :: 0 <= p < q < |averages|
        && averages[p].0 == WeakSections(averages)[i] && averages[q].0 == WeakSections(averages)[j]
    decreases |averages|
  {
    if averages != [] {
      var n := |averages|;
      var init := averages[..n - 1];
      WeakSectionsInOrder(init);
      var prev := WeakSections(init);
      var w := WeakSections(averages);
      var last := averages[n - 1];
      assert w == if last.1 < WeakThreshold then prev + [last.0] else prev;
      forall i | 0 <= i < |w|
        ensures exists p :: 0 <= p < |averages| && averages[p].0 == w[i] && averages[p].1 < WeakThreshold
      {
        if i < |prev| {
          assert w[i] == prev[i];
          var p :| 0 <= p < |init| && init[p].0 == prev[i] && init[p].1 < WeakThreshold;
          assert averages[p] == init[p];
        } else {
          assert averages[n - 1].0 == w[i] && averages[n - 1].1 < WeakThreshold;
        }
      }
      forall i, j | 0 <= i < j < |w|
        ensures exists p, q :: 0 <= p < q < |averages| && averages[p].0 == w[i] && averages[q].0 == w[j]
      {
        assert w[i] == prev[i];
        if j < |prev| {
          assert w[j] == prev[j];
          var p, q :| 0 <= p < q < |init| && init[p].0 == prev[i] && init[q].0 == prev[j];
          assert averages[p] == init[p] && averages[q] == init[q];
        } else {
          var p :| 0 <= p < |init| && init[p].0 == prev[i] && init[p].1 < WeakThreshold;
          assert averages[p] == init[p] && averages[n - 1].0 == w[j];
        }
      }
    } else {
      assert WeakSections(averages) == [];
    }
  }

  /**
   * End to end: the overall match is 100 times the mean similarity of the
   * section and overview chunks, and a section is weak exactly when the mean
   * of its own similarities is below 0.5.
   */
  lemma ReportSpec(md: seq<Entry>, jdEmbedding: Option<Vector>, encode: string -> Vector, score: (Vector, Vector) -> real, s: string)
    requires Compare(md, jdEmbedding, encode, score).Some?
    ensures var chunks := ResumeChunks(md);
      var names := SectionNames(chunks);
      var sims := Similarities(chunks, jdEmbedding.value, encode, score);
      var report := Compare(md, jdEmbedding, encode, score).value;
      && report.overallMatch == Mean(sims) * 100.0
      && Keys(report.sectionScores) == Dedup(names)
      && (s in report.weakSections <==> s in names && Mean(Select(names, sims, s)) < WeakThreshold)
  {
    var chunks := ResumeChunks(md);
    var names := SectionNames(chunks);
    var sims := Similarities(chunks, jdEmbedding.value, encode, score);
    var averages := Averages(Group(names, sims));
    SectionScores(chunks, sims, s);
    WeakSectionsSpec(averages, s);
  }

  /** In the report, the weak sections are listed in the order of the section scores. */
  lemma ReportWeakSectionsInOrder(md: seq<Entry>, jdEmbedding: Option<Vector>, encode: string -> Vector,
                                  score: (Vector, Vector) -> real, report: Report)
    requires Compare(md, jdEmbedding, encode, score) == Some(report)
    ensures forall i, j :: 0 <= i < j < |report.weakSections| ==>
      exists p, q :: 0 <= p < q < |report.sectionScores|
        && report.sectionScores[p].0 == report.weakSections[i]
        && report.sectionScores[q].0 == report.weakSections[j]
  {
    assert report.weakSections == WeakSections(report.sectionScores);
    WeakSectionsInOrder(report.sectionScores);
  }
}
