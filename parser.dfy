/**
 * feature_parser itself: the constructor, which appends the features of one
 * line to a list, and __str__, which prints that list. The object has no
 * other state, and a constructor that raises leaves no object behind, so
 * Construct returns the finished list or the exception.
 */
module FeatureParser {
  import opened Wrappers
  import opened Text
  import opened Escape
  import opened Attributes
  import opened Records
  import opened Expander

  /** feature_parser.__init__(line, source): read the columns, then append the features. */
  method Construct(line: string, source: string) returns (res: Result<seq<Feature>, Error>)
    ensures res == Convert(line, source)
  {
    var parsed := ParseRecord(line);
    if parsed.Failure? {
      return Failure(parsed.error);
    }
    res := Append(parsed.value, source);
  }

  /** The body of the constructor after the columns are read, in the order it appends features. */
  method Append(r: Record, source: string) returns (res: Result<seq<Feature>, Error>)
    requires Parsed(r)
    ensures res == Expand(r, source)
  {
    var base: seq<Attribute> := [];
    if r.geneName != "" {
      base := Put(base, "Name", r.geneName);
    }

    // sorted([CDS_START, CDS_END]) raises TypeError when CDS_END is blank.
    var cdsStart, cdsEnd := 0, 0;
    if r.cdsStart.Some? {
      if r.cdsEnd.None? {
        assert !CdsComplete(r);
        return Failure(CdsEndMissing);
      }
      var sorted := SortedPair(r.cdsStart.value, r.cdsEnd.value);
      cdsStart, cdsEnd := sorted.0, sorted.1;
    }

    // s_exon_starts and s_exon_ends are only assigned for '+' and '-'.
    var oriented := false;
    var exonStarts: seq<int>, exonEnds: seq<int> := [], [];
    if r.strand.Plus? {
      exonStarts, exonEnds := r.exonStarts, r.exonEnds;
      oriented := true;
    } else if r.strand.Minus? {
      exonStarts, exonEnds := Reverse(r.exonEnds), Reverse(r.exonStarts);
      oriented := true;
    }

    assert !Consistent(r) ==> Expand(r, source) == Failure(ExonCountMismatch);
    assert Consistent(r) && !Oriented(r) ==> Expand(r, source) == Failure(StrandUnbound(StrandText(r.strand)));
    var features := GeneAndTranscript(r, source, base);

    if !(r.exonCount == |r.exonStarts| && |r.exonStarts| == |r.exonEnds|) {
      return Failure(ExonCountMismatch);
    }
    // The first exon reads s_exon_starts[0] (EXON_COUNT >= 1 here), which
    // raises when the strand left it unassigned.
    if !oriented {
      return Failure(StrandUnbound(StrandText(r.strand)));
    }
    assert Consistent(r) && Oriented(r) && CdsComplete(r);
    features := AppendExons(r, source, base, exonStarts, exonEnds, features);
    ghost var exonsDone := features;
    assert exonsDone == [GeneFeature(r, source), TranscriptFeature(r, source)] + ExonFeatures(r, source);
    assert Expand(r, source) == Success(exonsDone + CodingFeatures(r, source));

    if r.cdsStart.Some? {
      features := AppendCoding(r, source, base, cdsStart, cdsEnd, exonStarts, exonEnds, features);
    } else {
      assert CodingFeatures(r, source) == [];
      assert features == exonsDone + CodingFeatures(r, source);
    }
    return Success(features);
  }

  /** The CDS and UTR sections, reached only when CDS_START is not blank. */
  method AppendCoding(r: Record, source: string, base: seq<Attribute>, cdsStart: int, cdsEnd: int,
                      exonStarts: seq<int>, exonEnds: seq<int>, features0: seq<Feature>)
    returns (features: seq<Feature>)
    requires Consistent(r) && Oriented(r) && CdsComplete(r) && r.cdsStart.Some?
    requires (cdsStart, cdsEnd) == SortedPair(r.cdsStart.value, r.cdsEnd.value)
    requires base == BaseAttributes(r)
    requires exonStarts == OrientedStarts(r) && exonEnds == OrientedEnds(r)
    ensures features == features0 + CodingFeatures(r, source)
  {
    features := AppendCds(r, source, base, cdsStart, cdsEnd, exonStarts, exonEnds, features0);
    features := AppendUtrs(r, source, base, cdsStart, cdsEnd, features);
  }

  /** attributes = base.copy(); ID and Parent set; the tuple for one child of the transcript. */
  method ChildLine(r: Record, source: string, base: seq<Attribute>, t: FeatureType, start: int,
                   end: int, phase: Phase, suffix: string) returns (f: Feature)
    requires base == BaseAttributes(r)
    ensures f == Line(r, source, t, start, end, phase, ChildAttributes(r, suffix))
  {
    var attributes := base;
    attributes := Put(attributes, "ID", r.featureName + suffix);
    attributes := Put(attributes, "Parent", r.featureName + "-T");
    var joined := JoinAttributes(attributes);
    f := Feature(r.seqName, source, t, start, end, ".", r.strand, phase, joined);
  }

  /** The gene and mRNA sections. */
  method GeneAndTranscript(r: Record, source: string, base: seq<Attribute>) returns (features: seq<Feature>)
    requires base == BaseAttributes(r)
    ensures features == [GeneFeature(r, source), TranscriptFeature(r, source)]
  {
    features := [];

    var attributes := Put(base, "ID", r.featureName);
    attributes := Put(attributes, "Alias", Join(Split(r.aliases, '|'), ','));
    var note := EscapeText(r.description);
    attributes := Put(attributes, "Note", note);
    var joined := JoinAttributes(attributes);
    features := features + [Feature(r.seqName, source, Gene, r.start, r.end, ".", r.strand, Dot, joined)];

    var transcriptType := if r.cdsStart.Some? then MRna else Rna;
    attributes := Put(base, "ID", r.featureName + "-T");
    attributes := Put(attributes, "Parent", r.featureName);
    attributes := Put(attributes, "Alias", Join(Split(r.aliases, '|'), ','));
    note := EscapeText(r.description);
    attributes := Put(attributes, "Note", note);
    joined := JoinAttributes(attributes);
    features := features + [Feature(r.seqName, source, transcriptType, r.txnStart, r.txnEnd, ".",
                                    r.strand, Dot, joined)];
  }

  /** The exon section: one line per index, numbered by strand. */
  method AppendExons(r: Record, source: string, base: seq<Attribute>, exonStarts: seq<int>,
                     exonEnds: seq<int>, features0: seq<Feature>) returns (features: seq<Feature>)
    requires Consistent(r) && Oriented(r) && base == BaseAttributes(r)
    requires exonStarts == OrientedStarts(r) && exonEnds == OrientedEnds(r)
    ensures features == features0 + ExonFeatures(r, source)
  {
    features := features0;
    for i := 0 to r.exonCount
      invariant features == features0 + ExonFeatures(r, source)[..i]
    {
      var number := if r.strand.Plus? then i + 1 else r.exonCount - i;
      var f := ChildLine(r, source, base, Exon, exonStarts[i], exonEnds[i], Dot,
                         "-T-E" + NatToString(number));
      features := features + [f];
      assert ExonFeatures(r, source)[..i + 1] == ExonFeatures(r, source)[..i] + [ExonFeature(r, source, i)];
    }
    assert ExonFeatures(r, source)[..r.exonCount] == ExonFeatures(r, source);
  }

  /** The CDS section: the whole sorted span for one exon, a clipped segment per overlapping exon otherwise. */
  method AppendCds(r: Record, source: string, base: seq<Attribute>, cdsStart: int, cdsEnd: int,
                   exonStarts: seq<int>, exonEnds: seq<int>, features0: seq<Feature>)
    returns (features: seq<Feature>)
    requires Consistent(r) && Oriented(r) && base == BaseAttributes(r)
    requires exonStarts == OrientedStarts(r) && exonEnds == OrientedEnds(r)
    ensures features == features0 + CdsPart(r, source, cdsStart, cdsEnd)
  {
    features := features0;
    if r.exonCount == 1 {
      var f := ChildLine(r, source, base, Cds, cdsStart, cdsEnd, Zero, "-P");
      features := features + [f];
    } else {
      for i := 0 to |r.exonStarts|
        invariant features == features0 + CdsSegments(r, source, cdsStart, cdsEnd, i)
      {
        if cdsStart < exonEnds[i] && exonStarts[i] < cdsEnd {
          var start, end;
          if exonStarts[i] < cdsStart < exonEnds[i] {
            start := cdsStart;
          } else {
            start := exonStarts[i];
          }
          if start < cdsEnd < exonEnds[i] {
            end := cdsEnd;
          } else {
            end := exonEnds[i];
          }
          var f := ChildLine(r, source, base, Cds, start, end, Zero, "-P");
          features := features + [f];
        }
      }
    }
  }

  /** The UTR section: upstream, then downstream, each at most once. */
  method AppendUtrs(r: Record, source: string, base: seq<Attribute>, cdsStart: int, cdsEnd: int,
                    features0: seq<Feature>) returns (features: seq<Feature>)
    requires Oriented(r) && base == BaseAttributes(r)
    ensures features == features0 + UpstreamUtr(r, source, cdsStart) + DownstreamUtr(r, source, cdsEnd)
  {
    features := features0;
    if r.txnStart < cdsStart {
      var utrType, suffix;
      if r.strand.Plus? {
        utrType, suffix := FivePrimeUtr, "-5";
      } else {
        utrType, suffix := ThreePrimeUtr, "-3";
      }
      var f := ChildLine(r, source, base, utrType, r.txnStart, cdsStart - 1, Dot, suffix);
      features := features + [f];
    }
    if cdsEnd < r.txnEnd {
      var utrType, suffix;
      if r.strand.Plus? {
        utrType, suffix := ThreePrimeUtr, "-3";
      } else {
        utrType, suffix := FivePrimeUtr, "-5";
      }
      var f := ChildLine(r, source, base, utrType, cdsEnd + 1, r.txnEnd, Dot, suffix);
      features := features + [f];
    }
  }

  /** The nine columns of a line, as str() writes each of them. */
  function FeatureColumns(f: Feature): (cols: seq<string>)
    ensures |cols| == 9
  {
    [f.seqid, f.source, TypeName(f.featureType), IntToString(f.start), IntToString(f.end), f.score,
     StrandText(f.strand), PhaseText(f.phase), f.attributes]
  }

  /** One output line: the columns joined by tabs. */
  function FeatureLine(f: Feature): string
  {
    Join(FeatureColumns(f), '\t')
  }

  /** feature_parser.__str__: the lines of the features, joined by newlines. */
  function Render(features: seq<Feature>): string
  {
    Join(seq(|features|, i requires 0 <= i < |features| => FeatureLine(features[i])), '\n')
  }

  /** The text columns of a feature hold neither a tab nor a newline. */
  predicate Printable(f: Feature)
  {
    var texts := [f.seqid, f.source, f.score, StrandText(f.strand), f.attributes];
    forall j | 0 <= j < |texts| :: '\t' !in texts[j] && '\n' !in texts[j]
  }

  lemma FixedColumnsPlain(f: Feature)
    ensures '\t' !in TypeName(f.featureType) && '\n' !in TypeName(f.featureType)
    ensures '\t' !in PhaseText(f.phase) && '\n' !in PhaseText(f.phase)
  {
    match f.featureType
    case Gene =>
    case MRna =>
    case Rna =>
    case Exon =>
    case Cds =>
    case FivePrimeUtr =>
    case ThreePrimeUtr =>
  }

  lemma NumberColumnPlain(n: int)
    ensures '\t' !in IntToString(n) && '\n' !in IntToString(n)
  {
    IntToStringChars(n);
  }

  lemma ColumnsPrintable(f: Feature)
    requires Printable(f)
    ensures forall j | 0 <= j < 9 :: '\t' !in FeatureColumns(f)[j] && '\n' !in FeatureColumns(f)[j]
  {
    FixedColumnsPlain(f);
    NumberColumnPlain(f.start);
    NumberColumnPlain(f.end);
    var texts := [f.seqid, f.source, f.score, StrandText(f.strand), f.attributes];
    assert '\t' !in texts[0] && '\n' !in texts[0] && '\t' !in texts[1] && '\n' !in texts[1];
    assert '\t' !in texts[2] && '\n' !in texts[2] && '\t' !in texts[3] && '\n' !in texts[3];
    assert '\t' !in texts[4] && '\n' !in texts[4];
  }

  /**
   * Reading the printed text back: one line per feature, and the nine
   * columns of each line are the ones of that feature.
   */
  lemma RenderReadsBack(features: seq<Feature>)
    requires |features| >= 1
    requires forall i | 0 <= i < |features| :: Printable(features[i])
    ensures |Split(Render(features), '\n')| == |features|
    ensures forall i | 0 <= i < |features| ::
      Split(Split(Render(features), '\n')[i], '\t') == FeatureColumns(features[i])
  {
    var lines := seq(|features|, i requires 0 <= i < |features| => FeatureLine(features[i]));
    forall i | 0 <= i < |features|
      ensures '\n' !in lines[i]
      ensures Split(lines[i], '\t') == FeatureColumns(features[i])
    {
      ColumnsPrintable(features[i]);
      JoinCharsFrom(FeatureColumns(features[i]), '\t', '\n');
      SplitJoin(FeatureColumns(features[i]), '\t');
    }
    SplitJoin(lines, '\n');
  }
}
