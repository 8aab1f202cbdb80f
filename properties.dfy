/**
 * What the converter promises about the features of one gene row: which
 * rows it refuses, the columns every feature shares, the layout of
 * column 9, the order and orientation of the exons, where the CDS segments
 * and UTRs fall, and how many lines a row becomes.
 */
module ExpanderProperties {
  import opened Wrappers
  import opened Text
  import opened Escape
  import opened Attributes
  import opened Records
  import opened Expander

  // ---------------------------------------------------------------------
  // Column 9
  // ---------------------------------------------------------------------

  /** The Name pair, when there is one: it comes first in every dict. */
  function NamePair(r: Record): seq<Attribute>
  {
    if r.geneName != "" then [("Name", r.geneName)] else []
  }

  /** The keys of the Name pair. */
  function NameKeys(r: Record): seq<string>
  {
    if r.geneName != "" then ["Name"] else []
  }

  /** Setting a key that is not yet in a dict with the given keys appends it. */
  lemma PutNew(attrs: seq<Attribute>, keys: seq<string>, k: string, v: string)
    requires Keys(attrs) == keys && k !in keys
    ensures Put(attrs, k, v) == attrs + [(k, v)]
    ensures Keys(Put(attrs, k, v)) == keys + [k]
  {
    PutAbsent(attrs, k, v);
    PutSpec(attrs, k, v);
  }

  lemma BaseKeys(r: Record)
    ensures BaseAttributes(r) == NamePair(r) && Keys(BaseAttributes(r)) == NameKeys(r)
  {
  }

  /** Gene: [Name], ID, Alias, Note, in that order. */
  lemma GeneAttributesLayout(r: Record)
    ensures GeneAttributes(r)
      == NamePair(r) + [("ID", r.featureName), ("Alias", AliasText(r)), ("Note", Escaped(r.description))]
  {
    var names := NameKeys(r);
    var a := BaseAttributes(r);
    BaseKeys(r);
    PutNew(a, names, "ID", r.featureName);
    var b := Put(a, "ID", r.featureName);
    PutNew(b, names + ["ID"], "Alias", AliasText(r));
    var c := Put(b, "Alias", AliasText(r));
    PutNew(c, names + ["ID"] + ["Alias"], "Note", Escaped(r.description));
  }

  /** Transcript: [Name], ID, Parent, Alias, Note, in that order. */
  lemma TranscriptAttributesLayout(r: Record)
    ensures TranscriptAttributes(r)
      == NamePair(r) + [("ID", TranscriptId(r)), ("Parent", r.featureName), ("Alias", AliasText(r)),
                        ("Note", Escaped(r.description))]
  {
    var names := NameKeys(r);
    var a := BaseAttributes(r);
    BaseKeys(r);
    PutNew(a, names, "ID", TranscriptId(r));
    var b := Put(a, "ID", TranscriptId(r));
    PutNew(b, names + ["ID"], "Parent", r.featureName);
    var c := Put(b, "Parent", r.featureName);
    PutNew(c, names + ["ID"] + ["Parent"], "Alias", AliasText(r));
    var d := Put(c, "Alias", AliasText(r));
    PutNew(d, names + ["ID"] + ["Parent"] + ["Alias"], "Note", Escaped(r.description));
  }

  /** Exons, CDS segments and UTRs: [Name], ID, Parent (the transcript), in that order. */
  lemma ChildAttributesLayout(r: Record, suffix: string)
    ensures ChildAttributes(r, suffix)
      == NamePair(r) + [("ID", r.featureName + suffix), ("Parent", TranscriptId(r))]
  {
    var names := NameKeys(r);
    var a := BaseAttributes(r);
    BaseKeys(r);
    PutNew(a, names, "ID", r.featureName + suffix);
    var b := Put(a, "ID", r.featureName + suffix);
    PutNew(b, names + ["ID"], "Parent", TranscriptId(r));
  }

  /** The Alias value is ALIASES with every '|' turned into ','. */
  lemma AliasIsReplace(r: Record)
    ensures AliasText(r) == Replace(r.aliases, '|', ',')
  {
    JoinSplitIsReplace(r.aliases, '|', ',');
  }

  /** The Note value decodes back to DESCRIPTION and carries no ';', '=', ',' or control character. */
  lemma NoteRoundTrip(r: Record)
    ensures Lookup(GeneAttributes(r), "Note") == Some(Escaped(r.description))
    ensures Lookup(TranscriptAttributes(r), "Note") == Some(Escaped(r.description))
    ensures PercentDecode(Escaped(r.description)) == r.description
    ensures PercentSafe(Escaped(r.description))
  {
    PutSpec(Put(Put(BaseAttributes(r), "ID", r.featureName), "Alias", AliasText(r)), "Note",
            Escaped(r.description));
    PutSpec(Put(Put(Put(BaseAttributes(r), "ID", TranscriptId(r)), "Parent", r.featureName), "Alias",
                AliasText(r)), "Note", Escaped(r.description));
    DecodeEscaped(r.description);
    EscapedIsSafe(r.description);
  }

  /** No ';' in the names and aliases the converter copies into column 9 unescaped. */
  predicate PlainNames(r: Record)
  {
    ';' !in r.geneName && ';' !in r.featureName && ';' !in r.aliases
  }

  lemma NoSemicolonInNote(r: Record)
    ensures ';' !in Escaped(r.description)
  {
    EscapedIsSafe(r.description);
  }

  lemma NoSemicolonInAlias(r: Record)
    requires ';' !in r.aliases
    ensures ';' !in AliasText(r)
  {
    AliasIsReplace(r);
  }

  lemma PlainAfterName(r: Record, tail: seq<Attribute>)
    requires ';' !in r.geneName && Plain(tail)
    ensures Plain(NamePair(r) + tail)
  {
    var attrs := NamePair(r) + tail;
    forall i | |NamePair(r)| <= i < |attrs| ensures attrs[i] == tail[i - |NamePair(r)|] {
    }
  }

  /** Column 9 of the gene line reads back to the gene's dict. */
  lemma GeneColumnReadsBack(r: Record)
    requires PlainNames(r)
    ensures ParseAttributes(Joined(GeneAttributes(r))) == GeneAttributes(r)
  {
    GeneAttributesLayout(r);
    NoSemicolonInNote(r);
    NoSemicolonInAlias(r);
    var tail := [("ID", r.featureName), ("Alias", AliasText(r)), ("Note", Escaped(r.description))];
    var attrs := NamePair(r) + tail;
    assert Plain(tail);
    PlainAfterName(r, tail);
    ParseJoined(attrs);
  }

  /** The pairs of the transcript after Name. */
  function TranscriptTail(r: Record): seq<Attribute>
  {
    [("ID", TranscriptId(r)), ("Parent", r.featureName), ("Alias", AliasText(r)),
     ("Note", Escaped(r.description))]
  }

  lemma PlainTranscriptTail(r: Record)
    requires PlainNames(r)
    ensures Plain(TranscriptTail(r))
  {
    NoSemicolonInNote(r);
    NoSemicolonInAlias(r);
    var tail := TranscriptTail(r);
    forall i | 0 <= i < |tail| ensures '=' !in tail[i].0 && ';' !in tail[i].0 && ';' !in tail[i].1 {
      if i == 0 {
        assert TranscriptId(r) == r.featureName + "-T";
      }
    }
  }

  /** Column 9 of the transcript line reads back to the transcript's dict. */
  lemma TranscriptColumnReadsBack(r: Record)
    requires PlainNames(r)
    ensures ParseAttributes(Joined(TranscriptAttributes(r))) == TranscriptAttributes(r)
  {
    TranscriptAttributesLayout(r);
    PlainTranscriptTail(r);
    PlainAfterName(r, TranscriptTail(r));
    ParseJoined(NamePair(r) + TranscriptTail(r));
  }

  /** Column 9 of an exon, CDS or UTR line reads back to its dict. */
  lemma ChildColumnReadsBack(r: Record, suffix: string)
    requires PlainNames(r) && ';' !in suffix
    ensures ParseAttributes(Joined(ChildAttributes(r, suffix))) == ChildAttributes(r, suffix)
  {
    ChildAttributesLayout(r, suffix);
    ParseJoined(ChildAttributes(r, suffix));
  }

  // ---------------------------------------------------------------------
  // Refusals
  // ---------------------------------------------------------------------

  /** CDS_END is only read when CDS_START is not blank. */
  lemma CdsEndIgnoredWithoutStart(r: Record, source: string, cdsEnd: Option<int>)
    requires Parsed(r) && r.cdsStart.None?
    ensures Expand(r.(cdsEnd := cdsEnd), source) == Expand(r, source)
  {
    var r' := r.(cdsEnd := cdsEnd);
    assert CdsComplete(r) && CdsComplete(r') && Parsed(r');
    if Consistent(r) && Oriented(r) {
      assert BaseAttributes(r') == BaseAttributes(r);
      assert AliasText(r') == AliasText(r);
      assert GeneAttributes(r') == GeneAttributes(r);
      assert TranscriptAttributes(r') == TranscriptAttributes(r);
      assert ExonFeatures(r', source) == ExonFeatures(r, source) by {
        forall i | 0 <= i < r.exonCount
          ensures ExonFeatures(r', source)[i] == ExonFeatures(r, source)[i]
        {
          var suffix := "-T-E" + NatToString(ExonNumber(r, i));
          assert ChildAttributes(r', suffix) == ChildAttributes(r, suffix);
        }
      }
      assert CodingFeatures(r', source) == [] == CodingFeatures(r, source);
    }
  }

  /**
   * A parsed row fails at the first check the constructor reaches: sorting a
   * CDS_START against a blank CDS_END, then the exon assertion, then the first
   * read of the oriented exon lists; only a row passing all three converts.
   */
  lemma Failures(r: Record, source: string)
    requires Parsed(r)
    ensures Expand(r, source) == Failure(CdsEndMissing) <==> r.cdsStart.Some? && r.cdsEnd.None?
    ensures Expand(r, source) == Failure(ExonCountMismatch)
      <==> (r.cdsStart.None? || r.cdsEnd.Some?)
           && (r.exonCount != |r.exonStarts| || r.exonCount != |r.exonEnds|)
    ensures Expand(r, source) == Failure(StrandUnbound(StrandText(r.strand)))
      <==> (r.cdsStart.None? || r.cdsEnd.Some?) && Consistent(r) && r.strand.Other?
    ensures Expand(r, source).Success? <==> CdsComplete(r) && Consistent(r) && Oriented(r)
  {
  }

  /** A row whose strand is neither '+' nor '-' never yields features. */
  lemma OnlyStrandedRows(line: string, source: string)
    requires Convert(line, source).Success?
    ensures forall f | f in Convert(line, source).value :: f.strand == Plus || f.strand == Minus
  {
    var r := ParseRecord(line).value;
    SharedColumns(r, source);
  }

  // ---------------------------------------------------------------------
  // Columns every feature shares
  // ---------------------------------------------------------------------

  /** seqid, source, score and strand come from the row; the phase is 0 on CDS lines and '.' elsewhere. */
  predicate OfRecord(f: Feature, r: Record, source: string)
  {
    f.seqid == r.seqName && f.source == source && f.score == "." && f.strand == r.strand
    && (f.phase == Zero <==> f.featureType == Cds)
  }

  lemma {:induction false} CdsSegmentsShape(r: Record, source: string, cdsStart: int, cdsEnd: int, k: nat)
    requires Consistent(r) && Oriented(r) && k <= r.exonCount
    ensures forall f | f in CdsSegments(r, source, cdsStart, cdsEnd, k) :: OfRecord(f, r, source) && f.featureType == Cds
  {
    if k > 0 {
      CdsSegmentsShape(r, source, cdsStart, cdsEnd, k - 1);
    }
  }

  lemma ExonsShape(r: Record, source: string)
    requires Consistent(r) && Oriented(r)
    ensures forall f | f in ExonFeatures(r, source) :: OfRecord(f, r, source) && f.featureType == Exon
  {
    var ex := ExonFeatures(r, source);
    forall f | f in ex ensures OfRecord(f, r, source) && f.featureType == Exon {
      var i :| 0 <= i < |ex| && ex[i] == f;
    }
  }

  lemma CodingShape(r: Record, source: string)
    requires Consistent(r) && Oriented(r) && CdsComplete(r)
    ensures forall f | f in CodingFeatures(r, source) :: OfRecord(f, r, source) && (f.featureType == Cds || IsUtr(f))
  {
    if r.cdsStart.Some? {
      var (cdsStart, cdsEnd) := SortedPair(r.cdsStart.value, r.cdsEnd.value);
      CdsSegmentsShape(r, source, cdsStart, cdsEnd, r.exonCount);
      var cds := CdsPart(r, source, cdsStart, cdsEnd);
      var up := UpstreamUtr(r, source, cdsStart);
      var down := DownstreamUtr(r, source, cdsEnd);
      assert CodingFeatures(r, source) == cds + up + down;
      assert forall f | f in cds :: OfRecord(f, r, source) && f.featureType == Cds;
    }
  }

  /** The features of a row that converts: the record's columns, and nothing but '+' or '-'. */
  lemma SharedColumns(r: Record, source: string)
    requires Parsed(r) && Expand(r, source).Success?
    ensures forall f | f in Expand(r, source).value :: OfRecord(f, r, source)
    ensures r.strand.Plus? || r.strand.Minus?
  {
    var head := [GeneFeature(r, source), TranscriptFeature(r, source)];
    var ex := ExonFeatures(r, source);
    var co := CodingFeatures(r, source);
    var fs := Expand(r, source).value;
    assert fs == head + ex + co;
    ExonsShape(r, source);
    CodingShape(r, source);
    forall f | f in fs ensures OfRecord(f, r, source) {
      if f !in head && f !in ex {
        assert f in co;
      }
    }
  }

  // ---------------------------------------------------------------------
  // Order of the lines
  // ---------------------------------------------------------------------

  predicate IsUtr(f: Feature)
  {
    f.featureType == FivePrimeUtr || f.featureType == ThreePrimeUtr
  }

  lemma {:induction false} CdsSegmentsLength(r: Record, source: string, cdsStart: int, cdsEnd: int, k: nat)
    requires Consistent(r) && Oriented(r) && k <= r.exonCount
    ensures |CdsSegments(r, source, cdsStart, cdsEnd, k)| <= k
  {
    if k > 0 {
      CdsSegmentsLength(r, source, cdsStart, cdsEnd, k - 1);
    }
  }

  /** The three runs of lines of a row that converts. */
  lemma ExpandParts(r: Record, source: string)
    requires Parsed(r) && Expand(r, source).Success?
    ensures Consistent(r) && Oriented(r) && CdsComplete(r)
    ensures Expand(r, source).value
      == [GeneFeature(r, source), TranscriptFeature(r, source)] + ExonFeatures(r, source) + CodingFeatures(r, source)
  {
  }

  /** Where the lines of a middle run sit in a concatenation of three runs. */
  lemma MiddleRun(fs: seq<Feature>, head: seq<Feature>, mid: seq<Feature>, tail: seq<Feature>, t: FeatureType)
    requires fs == head + mid + tail
    requires forall i | 0 <= i < |head| :: head[i].featureType != t
    requires forall f | f in mid :: f.featureType == t
    requires forall f | f in tail :: f.featureType != t
    ensures forall i | 0 <= i < |fs| :: fs[i].featureType == t <==> |head| <= i < |head| + |mid|
  {
    forall i | 0 <= i < |fs| ensures fs[i].featureType == t <==> |head| <= i < |head| + |mid| {
      if i < |head| {
        assert fs[i] == head[i];
      } else if i >= |head| + |mid| {
        assert fs[i] == tail[i - |head| - |mid|];
      } else {
        assert fs[i] == mid[i - |head|];
      }
    }
  }

  /** Lines that are UTRs exactly in the last run of a concatenation come after all the others. */
  lemma LastRun(fs: seq<Feature>, head: seq<Feature>, ex: seq<Feature>, cds: seq<Feature>, utrs: seq<Feature>)
    requires fs == head + ex + (cds + utrs)
    requires forall i | 0 <= i < |head| :: !IsUtr(head[i])
    requires forall f | f in ex :: !IsUtr(f)
    requires forall f | f in cds :: !IsUtr(f)
    requires forall f | f in utrs :: IsUtr(f)
    ensures forall i, j | 0 <= i < j < |fs| :: IsUtr(fs[i]) ==> IsUtr(fs[j])
  {
    var n := |head| + |ex| + |cds|;
    forall i | 0 <= i < |fs| ensures IsUtr(fs[i]) <==> i >= n {
      if i < |head| {
        assert fs[i] == head[i];
      } else if i < |head| + |ex| {
        assert fs[i] == ex[i - |head|];
      } else if i < n {
        assert fs[i] == cds[i - |head| - |ex|];
      } else {
        assert fs[i] == utrs[i - n];
      }
    }
  }

  /** After the exons: the CDS lines, then the UTR lines. */
  lemma CodingRuns(r: Record, source: string) returns (cds: seq<Feature>, utrs: seq<Feature>)
    requires Consistent(r) && Oriented(r) && CdsComplete(r)
    ensures CodingFeatures(r, source) == cds + utrs
    ensures forall f | f in cds :: f.featureType == Cds
    ensures forall f | f in utrs :: IsUtr(f)
    ensures |cds| <= r.exonCount && |utrs| <= 2
    ensures r.cdsStart.None? ==> cds == [] && utrs == []
  {
    if r.cdsStart.Some? {
      var (cdsStart, cdsEnd) := SortedPair(r.cdsStart.value, r.cdsEnd.value);
      CdsSegmentsShape(r, source, cdsStart, cdsEnd, r.exonCount);
      CdsSegmentsLength(r, source, cdsStart, cdsEnd, r.exonCount);
      cds := CdsPart(r, source, cdsStart, cdsEnd);
      var up := UpstreamUtr(r, source, cdsStart);
      var down := DownstreamUtr(r, source, cdsEnd);
      utrs := up + down;
      assert cds + up + down == cds + (up + down);
    } else {
      cds, utrs := [], [];
    }
  }

  /** The first line is the gene, over START..END. */
  lemma GeneLine(r: Record, source: string)
    requires Parsed(r) && Expand(r, source).Success?
    ensures var fs := Expand(r, source).value;
      |fs| >= 2 && fs[0].featureType == Gene && fs[0].start == r.start && fs[0].end == r.end
      && fs[0].attributes == Joined(GeneAttributes(r))
  {
    ExpandParts(r, source);
    assert Expand(r, source).value[0] == GeneFeature(r, source);
  }

  /** The second line is the transcript over TXN_START..TXN_END: an mRNA exactly when CDS_START is not blank. */
  lemma TranscriptLine(r: Record, source: string)
    requires Parsed(r) && Expand(r, source).Success?
    ensures var fs := Expand(r, source).value;
      |fs| >= 2 && (fs[1].featureType == MRna <==> r.cdsStart.Some?)
      && (fs[1].featureType == Rna <==> r.cdsStart.None?)
      && fs[1].start == r.txnStart && fs[1].end == r.txnEnd
      && fs[1].attributes == Joined(TranscriptAttributes(r))
  {
    ExpandParts(r, source);
    assert Expand(r, source).value[1] == TranscriptFeature(r, source);
  }

  /** Then one exon line per index, in index order. */
  lemma ExonLinesAt(r: Record, source: string)
    requires Parsed(r) && Expand(r, source).Success?
    ensures Consistent(r) && Oriented(r)
    ensures var fs := Expand(r, source).value;
      |fs| >= 2 + r.exonCount
      && forall i | 2 <= i < 2 + r.exonCount :: fs[i] == ExonFeature(r, source, i - 2)
  {
    ExpandParts(r, source);
    var fs := Expand(r, source).value;
    var ex := ExonFeatures(r, source);
    forall i | 2 <= i < 2 + r.exonCount ensures fs[i] == ExonFeature(r, source, i - 2) {
      assert fs[i] == ex[i - 2];
    }
  }

  /** No exon line outside that run. */
  lemma ExonLinesOnly(r: Record, source: string)
    requires Parsed(r) && Expand(r, source).Success?
    ensures var fs := Expand(r, source).value;
      forall i | 0 <= i < |fs| :: fs[i].featureType == Exon <==> 2 <= i < 2 + r.exonCount
  {
    ExpandParts(r, source);
    var head := [GeneFeature(r, source), TranscriptFeature(r, source)];
    var co := CodingFeatures(r, source);
    CodingShape(r, source);
    ExonsShape(r, source);
    assert head[0].featureType == Gene && head[1].featureType != Exon;
    MiddleRun(Expand(r, source).value, head, ExonFeatures(r, source), co, Exon);
  }

  /** The UTR lines come last. */
  lemma UtrsLast(r: Record, source: string)
    requires Parsed(r) && Expand(r, source).Success?
    ensures var fs := Expand(r, source).value;
      forall i, j | 0 <= i < j < |fs| :: IsUtr(fs[i]) ==> IsUtr(fs[j])
  {
    ExpandParts(r, source);
    var head := [GeneFeature(r, source), TranscriptFeature(r, source)];
    var ex := ExonFeatures(r, source);
    ExonsShape(r, source);
    var cds, utrs := CodingRuns(r, source);
    assert !IsUtr(head[0]) && !IsUtr(head[1]);
    LastRun(Expand(r, source).value, head, ex, cds, utrs);
  }

  /** How many lines one row becomes. */
  lemma FeatureCount(r: Record, source: string)
    requires Parsed(r) && Expand(r, source).Success?
    ensures 2 + r.exonCount <= |Expand(r, source).value| <= 4 + 2 * r.exonCount
    ensures r.cdsStart.None? ==> |Expand(r, source).value| == 2 + r.exonCount
  {
    ExpandParts(r, source);
    var cds, utrs := CodingRuns(r, source);
  }

  /** The lines of a single-exon coding row: gene, transcript, exon, one CDS, then the UTRs. */
  lemma SingleExonParts(r: Record, source: string, cdsStart: int, cdsEnd: int)
    requires Parsed(r) && Expand(r, source).Success?
    requires r.exonCount == 1 && r.cdsStart.Some?
    requires (cdsStart, cdsEnd) == SortedPair(r.cdsStart.value, r.cdsEnd.value)
    ensures Expand(r, source).value
      == [GeneFeature(r, source), TranscriptFeature(r, source), ExonFeature(r, source, 0)]
         + [CdsFeature(r, source, cdsStart, cdsEnd)]
         + (UpstreamUtr(r, source, cdsStart) + DownstreamUtr(r, source, cdsEnd))
  {
    assert ExonFeatures(r, source) == [ExonFeature(r, source, 0)];
  }

  lemma UtrsAreUtrs(r: Record, source: string, cdsStart: int, cdsEnd: int)
    requires Oriented(r)
    ensures forall f | f in UpstreamUtr(r, source, cdsStart) + DownstreamUtr(r, source, cdsEnd) :: IsUtr(f)
  {
  }

  /** Three lines that are not CDS, one that is, then UTRs: the fourth is the only CDS. */
  lemma LoneCds(fs: seq<Feature>, head: seq<Feature>, cds: Feature, utrs: seq<Feature>)
    requires fs == head + [cds] + utrs && |head| == 3
    requires head[0].featureType != Cds && head[1].featureType != Cds && head[2].featureType != Cds
    requires cds.featureType == Cds
    requires forall f | f in utrs :: IsUtr(f)
    ensures |fs| >= 4 && fs[3] == cds
    ensures forall i | 0 <= i < |fs| :: fs[i].featureType == Cds <==> i == 3
  {
    forall i | 0 <= i < |fs| ensures fs[i].featureType == Cds <==> i == 3 {
      if i < 3 {
        assert fs[i] == head[i];
      } else if i > 3 {
        assert fs[i] == utrs[i - 4] && utrs[i - 4] in utrs;
      }
    }
  }

  /**
   * With one exon the CDS is a single line right after it, over the two CDS
   * columns in ascending order, whatever the exon's own span.
   */
  lemma SingleExonCds(r: Record, source: string)
    requires Parsed(r) && Expand(r, source).Success?
    requires r.exonCount == 1 && r.cdsStart.Some?
    ensures var fs := Expand(r, source).value;
      |fs| >= 4 && fs[3].featureType == Cds
      && fs[3].start <= fs[3].end
      && multiset{fs[3].start, fs[3].end} == multiset{r.cdsStart.value, r.cdsEnd.value}
      && fs[3].attributes == Joined(ChildAttributes(r, "-P"))
      && forall i | 0 <= i < |fs| :: fs[i].featureType == Cds <==> i == 3
  {
    var (cdsStart, cdsEnd) := SortedPair(r.cdsStart.value, r.cdsEnd.value);
    SingleExonParts(r, source, cdsStart, cdsEnd);
    UtrsAreUtrs(r, source, cdsStart, cdsEnd);
    var head := [GeneFeature(r, source), TranscriptFeature(r, source), ExonFeature(r, source, 0)];
    LoneCds(Expand(r, source).value, head, CdsFeature(r, source, cdsStart, cdsEnd),
            UpstreamUtr(r, source, cdsStart) + DownstreamUtr(r, source, cdsEnd));
  }

  // ---------------------------------------------------------------------
  // Exons
  // ---------------------------------------------------------------------

  /** The exon ID suffix of the exon at index i. */
  function ExonSuffix(r: Record, i: nat): string
    requires Oriented(r) && i < r.exonCount
  {
    "-T-E" + NatToString(ExonNumber(r, i))
  }

  /**
   * The exon numbered k (1 to EXON_COUNT) is the k-th exon of the row:
   * as written on '+', with its start and end swapped on '-'.
   */
  lemma ExonNumbered(r: Record, source: string, k: nat)
    requires Consistent(r) && Oriented(r) && 1 <= k <= r.exonCount
    ensures var i := if r.strand.Plus? then k - 1 else r.exonCount - k;
      ExonNumber(r, i) == k
      && ExonFeatures(r, source)[i].attributes == Joined(ChildAttributes(r, "-T-E" + NatToString(k)))
      && (r.strand.Plus? ==>
            ExonFeatures(r, source)[i].start == r.exonStarts[k - 1] && ExonFeatures(r, source)[i].end == r.exonEnds[k - 1])
      && (r.strand.Minus? ==>
            ExonFeatures(r, source)[i].start == r.exonEnds[k - 1] && ExonFeatures(r, source)[i].end == r.exonStarts[k - 1])
  {
  }

  /** The exon numbers are 1 to EXON_COUNT, each used once. */
  lemma ExonNumbersDistinct(r: Record, i: nat, j: nat)
    requires Oriented(r) && i < r.exonCount && j < r.exonCount && i != j
    ensures 1 <= ExonNumber(r, i) <= r.exonCount
    ensures ExonNumber(r, i) != ExonNumber(r, j)
  {
  }

  /** Distinct exons get distinct IDs. */
  lemma ExonIdsDistinct(r: Record, i: nat, j: nat)
    requires Oriented(r) && i < r.exonCount && j < r.exonCount && i != j
    ensures Lookup(ChildAttributes(r, ExonSuffix(r, i)), "ID") != Lookup(ChildAttributes(r, ExonSuffix(r, j)), "ID")
  {
    ChildIdOf(r, ExonSuffix(r, i));
    ChildIdOf(r, ExonSuffix(r, j));
    var a := NatToString(ExonNumber(r, i));
    var b := NatToString(ExonNumber(r, j));
    NatToStringInjective(ExonNumber(r, i), ExonNumber(r, j));
    var p := r.featureName + "-T-E";
    assert r.featureName + ExonSuffix(r, i) == p + a;
    assert r.featureName + ExonSuffix(r, j) == p + b;
    assert (p + a)[|p|..] == a && (p + b)[|p|..] == b;
  }

  /** The ID of a child of the transcript is the feature name and its suffix. */
  lemma ChildIdOf(r: Record, suffix: string)
    ensures Lookup(ChildAttributes(r, suffix), "ID") == Some(r.featureName + suffix)
    ensures Lookup(ChildAttributes(r, suffix), "Parent") == Some(TranscriptId(r))
  {
    var a := Put(BaseAttributes(r), "ID", r.featureName + suffix);
    PutSpec(BaseAttributes(r), "ID", r.featureName + suffix);
    PutSpec(a, "Parent", TranscriptId(r));
  }

  // ---------------------------------------------------------------------
  // CDS segments
  // ---------------------------------------------------------------------

  /** Exon i overlaps the sorted CDS span by the converter's strict test. */
  predicate ExonOverlaps(r: Record, cdsStart: int, cdsEnd: int, i: nat)
    requires Consistent(r) && Oriented(r) && i < r.exonCount
  {
    Overlaps(cdsStart, cdsEnd, OrientedStarts(r)[i], OrientedEnds(r)[i])
  }

  /** The CDS line clipped to exon i. */
  function SegmentOf(r: Record, source: string, cdsStart: int, cdsEnd: int, i: nat): Feature
    requires Consistent(r) && Oriented(r) && i < r.exonCount
  {
    var start := ClipStart(cdsStart, OrientedStarts(r)[i], OrientedEnds(r)[i]);
    CdsFeature(r, source, start, ClipEnd(start, cdsEnd, OrientedEnds(r)[i]))
  }

  /** A CDS line is emitted for exactly the exons the CDS overlaps, clipped to each. */
  lemma {:induction false} CdsSegmentsMembers(r: Record, source: string, cdsStart: int, cdsEnd: int, k: nat)
    requires Consistent(r) && Oriented(r) && k <= r.exonCount
    ensures forall f :: f in CdsSegments(r, source, cdsStart, cdsEnd, k) <==>
      exists i | 0 <= i < k && ExonOverlaps(r, cdsStart, cdsEnd, i) :: f == SegmentOf(r, source, cdsStart, cdsEnd, i)
  {
    if k > 0 {
      CdsSegmentsMembers(r, source, cdsStart, cdsEnd, k - 1);
      var prev := CdsSegments(r, source, cdsStart, cdsEnd, k - 1);
      var last := CdsSegment(r, source, cdsStart, cdsEnd, k - 1);
      assert CdsSegments(r, source, cdsStart, cdsEnd, k) == prev + last;
      assert last == if ExonOverlaps(r, cdsStart, cdsEnd, k - 1) then [SegmentOf(r, source, cdsStart, cdsEnd, k - 1)] else [];
      forall f
        ensures f in prev + last <==>
          exists i | 0 <= i < k && ExonOverlaps(r, cdsStart, cdsEnd, i) :: f == SegmentOf(r, source, cdsStart, cdsEnd, i)
      {
        if exists i | 0 <= i < k && ExonOverlaps(r, cdsStart, cdsEnd, i) :: f == SegmentOf(r, source, cdsStart, cdsEnd, i) {
          var i :| 0 <= i < k && ExonOverlaps(r, cdsStart, cdsEnd, i) && f == SegmentOf(r, source, cdsStart, cdsEnd, i);
          if i < k - 1 {
            assert f in prev;
          } else {
            assert f in last;
          }
        }
      }
    }
  }

  /** With a CDS of positive length, the clipped segment is the intersection of the CDS and the exon. */
  lemma ClipIsIntersection(cdsStart: int, cdsEnd: int, exonStart: int, exonEnd: int)
    requires Overlaps(cdsStart, cdsEnd, exonStart, exonEnd) && cdsStart < cdsEnd
    ensures ClipStart(cdsStart, exonStart, exonEnd) == if cdsStart < exonStart then exonStart else cdsStart
    ensures ClipEnd(ClipStart(cdsStart, exonStart, exonEnd), cdsEnd, exonEnd)
      == if cdsEnd < exonEnd then cdsEnd else exonEnd
  {
  }

  /**
   * When CDS_START equals CDS_END inside an exon, the clipped end is
   * compared with the clipped start, fails the strict test, and the
   * segment runs on to the exon end.
   */
  lemma DegenerateCdsRunsToExonEnd(cds: int, exonStart: int, exonEnd: int)
    requires exonStart < cds < exonEnd
    ensures Overlaps(cds, cds, exonStart, exonEnd)
    ensures ClipStart(cds, exonStart, exonEnd) == cds
    ensures ClipEnd(ClipStart(cds, exonStart, exonEnd), cds, exonEnd) == exonEnd
  {
  }

  /** An exon ending exactly where the CDS starts shares that base but gets no segment. */
  lemma TouchingExonSkipped(cdsStart: int, cdsEnd: int, exonStart: int)
    requires exonStart <= cdsStart
    ensures !Overlaps(cdsStart, cdsEnd, exonStart, cdsStart)
  {
  }

  // ---------------------------------------------------------------------
  // UTRs
  // ---------------------------------------------------------------------

  /**
   * Each UTR lies outside the sorted CDS span, from TXN_START up to it or
   * from it up to TXN_END; the five-prime one is upstream on '+' and
   * downstream on '-'; its ID ends in -5 or -3 to match.
   */
  lemma UtrSides(r: Record, source: string, cdsStart: int, cdsEnd: int)
    requires Oriented(r) && cdsStart <= cdsEnd
    ensures forall f | f in UpstreamUtr(r, source, cdsStart) + DownstreamUtr(r, source, cdsEnd) ::
      && IsUtr(f) && OfRecord(f, r, source)
      && ((f.start == r.txnStart && f.end == cdsStart - 1) || (f.start == cdsEnd + 1 && f.end == r.txnEnd))
      && (f.featureType == FivePrimeUtr <==> (r.strand.Plus? <==> f.end < cdsStart))
      && f.attributes == Joined(ChildAttributes(r, if f.featureType == FivePrimeUtr then "-5" else "-3"))
    ensures (exists f | f in UpstreamUtr(r, source, cdsStart) + DownstreamUtr(r, source, cdsEnd) ::
               f.featureType == FivePrimeUtr)
      <==> if r.strand.Plus? then r.txnStart < cdsStart else cdsEnd < r.txnEnd
    ensures (exists f | f in UpstreamUtr(r, source, cdsStart) + DownstreamUtr(r, source, cdsEnd) ::
               f.featureType == ThreePrimeUtr)
      <==> if r.strand.Plus? then cdsEnd < r.txnEnd else r.txnStart < cdsStart
  {
    var up := UpstreamUtr(r, source, cdsStart);
    var down := DownstreamUtr(r, source, cdsEnd);
    assert forall f | f in up + down :: f in up || f in down;
  }
}
