/**
 * The feature expander of feature_parser.__init__: from one parsed MochiView
 * gene row, the GFF3 features gene, transcript, exons, CDS segments and UTRs,
 * in the order the constructor appends them. This module states that list as
 * a function of the record; FeatureParser.Construct builds it step by step.
 */
module Expander {
  import opened Wrappers
  import opened Text
  import opened Escape
  import opened Attributes
  import opened Records

  /** Column 3, from the Sequence Ontology terms the converter uses. */
  datatype FeatureType = Gene | MRna | Rna | Exon | Cds | FivePrimeUtr | ThreePrimeUtr

  function TypeName(t: FeatureType): string
  {
    match t
    case Gene => "gene"
    case MRna => "mRNA"
    case Rna => "RNA"
    case Exon => "exon"
    case Cds => "CDS"
    case FivePrimeUtr => "five_prime_UTR"
    case ThreePrimeUtr => "three_prime_UTR"
  }

  /** Column 8: '.' everywhere except on CDS lines, which always get 0. */
  datatype Phase = Dot | Zero

  function PhaseText(p: Phase): string
  {
    match p
    case Dot => "."
    case Zero => "0"
  }

  /** One GFF3 line: the nine-tuple the constructor appends, column 9 already joined. */
  datatype Feature = Feature(
    seqid: string,
    source: string,
    featureType: FeatureType,
    start: int,
    end: int,
    score: string,
    strand: Strand,
    phase: Phase,
    attributes: string)

  // ---------------------------------------------------------------------
  // Attributes
  // ---------------------------------------------------------------------

  /** base_attributes: Name, only when GENE_NAME is not blank. */
  function BaseAttributes(r: Record): seq<Attribute>
  {
    if r.geneName != "" then Put([], "Name", r.geneName) else []
  }

  /** ','.join(ALIASES.split('|')). */
  function AliasText(r: Record): string
  {
    Join(Split(r.aliases, '|'), ',')
  }

  function TranscriptId(r: Record): string
  {
    r.featureName + "-T"
  }

  function GeneAttributes(r: Record): seq<Attribute>
  {
    var a := Put(BaseAttributes(r), "ID", r.featureName);
    var a := Put(a, "Alias", AliasText(r));
    Put(a, "Note", Escaped(r.description))
  }

  function TranscriptAttributes(r: Record): seq<Attribute>
  {
    var a := Put(BaseAttributes(r), "ID", TranscriptId(r));
    var a := Put(a, "Parent", r.featureName);
    var a := Put(a, "Alias", AliasText(r));
    Put(a, "Note", Escaped(r.description))
  }

  /** The attributes of every child of the transcript: ID = name + suffix, Parent = the transcript. */
  function ChildAttributes(r: Record, suffix: string): seq<Attribute>
  {
    Put(Put(BaseAttributes(r), "ID", r.featureName + suffix), "Parent", TranscriptId(r))
  }

  // ---------------------------------------------------------------------
  // Features
  // ---------------------------------------------------------------------

  /** A line of this record: its seqid and strand, score '.'. */
  function Line(r: Record, source: string, t: FeatureType, start: int, end: int, phase: Phase,
                attrs: seq<Attribute>): Feature
  {
    Feature(r.seqName, source, t, start, end, ".", r.strand, phase, Joined(attrs))
  }

  function GeneFeature(r: Record, source: string): Feature
  {
    Line(r, source, Gene, r.start, r.end, Dot, GeneAttributes(r))
  }

  /** The transcript is an mRNA when CDS_START is not blank, an RNA otherwise. */
  function TranscriptFeature(r: Record, source: string): Feature
  {
    Line(r, source, if r.cdsStart.Some? then MRna else Rna, r.txnStart, r.txnEnd, Dot,
         TranscriptAttributes(r))
  }

  /** The assertion at the head of the exon section holds. */
  predicate Consistent(r: Record)
  {
    r.exonCount == |r.exonStarts| && |r.exonStarts| == |r.exonEnds|
  }

  /** The strand is one for which the oriented exon lists get assigned. */
  predicate Oriented(r: Record)
  {
    r.strand.Plus? || r.strand.Minus?
  }

  /** s[::-1]. */
  function Reverse(s: seq<int>): seq<int>
  {
    seq(|s|, i requires 0 <= i < |s| => s[|s| - 1 - i])
  }

  /** s_exon_starts: EXON_STARTS on '+', EXON_ENDS reversed on '-'. */
  function OrientedStarts(r: Record): seq<int>
    requires Oriented(r)
  {
    if r.strand.Plus? then r.exonStarts else Reverse(r.exonEnds)
  }

  /** s_exon_ends: EXON_ENDS on '+', EXON_STARTS reversed on '-'. */
  function OrientedEnds(r: Record): seq<int>
    requires Oriented(r)
  {
    if r.strand.Plus? then r.exonEnds else Reverse(r.exonStarts)
  }

  /** The number in the ID of the exon at index i: i+1 on '+', EXON_COUNT-i on '-'. */
  function ExonNumber(r: Record, i: nat): nat
    requires Oriented(r) && i < r.exonCount
  {
    if r.strand.Plus? then i + 1 else r.exonCount - i
  }

  function ExonFeature(r: Record, source: string, i: nat): Feature
    requires Consistent(r) && Oriented(r) && i < r.exonCount
  {
    Line(r, source, Exon, OrientedStarts(r)[i], OrientedEnds(r)[i], Dot,
         ChildAttributes(r, "-T-E" + NatToString(ExonNumber(r, i))))
  }

  /** One exon line per index, in index order. */
  function ExonFeatures(r: Record, source: string): (fs: seq<Feature>)
    requires Consistent(r) && Oriented(r)
  {
    seq(r.exonCount, i requires 0 <= i < r.exonCount => ExonFeature(r, source, i))
  }

  /** sorted([a, b]). */
  function SortedPair(a: int, b: int): (int, int)
  {
    if a <= b then (a, b) else (b, a)
  }

  /** The test a CDS segment is emitted under: strict on both sides. */
  predicate Overlaps(cdsStart: int, cdsEnd: int, exonStart: int, exonEnd: int)
  {
    cdsStart < exonEnd && exonStart < cdsEnd
  }

  /** The segment starts at the CDS start when that lies strictly inside the exon. */
  function ClipStart(cdsStart: int, exonStart: int, exonEnd: int): int
  {
    if exonStart < cdsStart < exonEnd then cdsStart else exonStart
  }

  /** The segment ends at the CDS end when that lies strictly between the clipped start and the exon end. */
  function ClipEnd(start: int, cdsEnd: int, exonEnd: int): int
  {
    if start < cdsEnd < exonEnd then cdsEnd else exonEnd
  }

  function CdsFeature(r: Record, source: string, start: int, end: int): Feature
  {
    Line(r, source, Cds, start, end, Zero, ChildAttributes(r, "-P"))
  }

  /** The CDS segment for exon i, if that exon overlaps the CDS. */
  function CdsSegment(r: Record, source: string, cdsStart: int, cdsEnd: int, i: nat): seq<Feature>
    requires Consistent(r) && Oriented(r) && i < r.exonCount
  {
    var exonStart := OrientedStarts(r)[i];
    var exonEnd := OrientedEnds(r)[i];
    if Overlaps(cdsStart, cdsEnd, exonStart, exonEnd) then
      var start := ClipStart(cdsStart, exonStart, exonEnd);
      [CdsFeature(r, source, start, ClipEnd(start, cdsEnd, exonEnd))]
    else []
  }

  /** The segments of the exons with index below k, in index order. */
  function CdsSegments(r: Record, source: string, cdsStart: int, cdsEnd: int, k: nat): seq<Feature>
    requires Consistent(r) && Oriented(r) && k <= r.exonCount
  {
    if k == 0 then []
    else CdsSegments(r, source, cdsStart, cdsEnd, k - 1) + CdsSegment(r, source, cdsStart, cdsEnd, k - 1)
  }

  /** One CDS over the sorted span for a single exon; per-exon segments otherwise. */
  function CdsPart(r: Record, source: string, cdsStart: int, cdsEnd: int): seq<Feature>
    requires Consistent(r) && Oriented(r)
  {
    if r.exonCount == 1 then [CdsFeature(r, source, cdsStart, cdsEnd)]
    else CdsSegments(r, source, cdsStart, cdsEnd, r.exonCount)
  }

  /** The 5' UTR on '+' (3' on '-') from TXN_START to just before the CDS. */
  function UpstreamUtr(r: Record, source: string, cdsStart: int): seq<Feature>
    requires Oriented(r)
  {
    if r.txnStart < cdsStart then
      [Line(r, source, if r.strand.Plus? then FivePrimeUtr else ThreePrimeUtr, r.txnStart,
            cdsStart - 1, Dot, ChildAttributes(r, if r.strand.Plus? then "-5" else "-3"))]
    else []
  }

  /** The 3' UTR on '+' (5' on '-') from just after the CDS to TXN_END. */
  function DownstreamUtr(r: Record, source: string, cdsEnd: int): seq<Feature>
    requires Oriented(r)
  {
    if cdsEnd < r.txnEnd then
      [Line(r, source, if r.strand.Plus? then ThreePrimeUtr else FivePrimeUtr, cdsEnd + 1,
            r.txnEnd, Dot, ChildAttributes(r, if r.strand.Plus? then "-3" else "-5"))]
    else []
  }

  /** Both CDS columns present, or CDS_START blank. */
  predicate CdsComplete(r: Record)
  {
    r.cdsStart.Some? ==> r.cdsEnd.Some?
  }

  /** Everything after the exons; nothing when CDS_START is blank. */
  function CodingFeatures(r: Record, source: string): seq<Feature>
    requires Consistent(r) && Oriented(r) && CdsComplete(r)
  {
    match r.cdsStart
    case None => []
    case Some(a) =>
      var (cdsStart, cdsEnd) := SortedPair(a, r.cdsEnd.value);
      CdsPart(r, source, cdsStart, cdsEnd) + UpstreamUtr(r, source, cdsStart)
      + DownstreamUtr(r, source, cdsEnd)
  }

  /**
   * The features of one record, or the exception that stops the constructor,
   * checked in the order the constructor reaches them.
   */
  function Expand(r: Record, source: string): Result<seq<Feature>, Error>
    requires Parsed(r)
  {
    if !CdsComplete(r) then Failure(CdsEndMissing)
    else if !Consistent(r) then Failure(ExonCountMismatch)
    else if !Oriented(r) then Failure(StrandUnbound(StrandText(r.strand)))
    else Success([GeneFeature(r, source), TranscriptFeature(r, source)] + ExonFeatures(r, source)
                 + CodingFeatures(r, source))
  }

  /** feature_parser(line, source).features, or the exception. */
  function Convert(line: string, source: string): Result<seq<Feature>, Error>
  {
    var r :- ParseRecord(line);
    Expand(r, source)
  }
}
