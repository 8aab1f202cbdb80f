/**
 * One MochiView gene row, as feature_parser.__init__ reads it: the line is
 * right-stripped, split on tabs, and fifteen columns are taken in order,
 * eight of them through int(). A missing column raises IndexError, a
 * non-numeric one ValueError; either ends the conversion.
 */
module Records {
  import opened Wrappers
  import opened Text

  // Column positions of the MochiView gene table.
  const SEQ_NAME: nat := 0
  const START: nat := 1
  const END: nat := 2
  const STRAND: nat := 3
  const FEATURE_NAME: nat := 4
  const TXN_START: nat := 5
  const TXN_END: nat := 6
  const EXON_COUNT: nat := 7
  const EXON_STARTS: nat := 8
  const EXON_ENDS: nat := 9
  const CDS_START: nat := 10
  const CDS_END: nat := 11
  const GENE_NAME: nat := 12
  const ALIASES: nat := 13
  const DESCRIPTION: nat := 14

  /** The STRAND column; the converter only knows what to do with '+' and '-'. */
  datatype Strand = Plus | Minus | Other(text: string)

  function StrandOf(s: string): (st: Strand)
    ensures st.Other? <==> s != "+" && s != "-"
    ensures st.Other? ==> st.text == s
  {
    if s == "+" then Plus else if s == "-" then Minus else Other(s)
  }

  /** The strand as written back into column 7 of every feature. */
  function StrandText(st: Strand): string
  {
    match st
    case Plus => "+"
    case Minus => "-"
    case Other(t) => t
  }

  /** The strand column is written back into every feature exactly as it was read. */
  lemma StrandRoundTrip(s: string)
    ensures StrandText(StrandOf(s)) == s
  {
  }

  /** The parsed row; a blank CDS column is None. */
  datatype Record = Record(
    seqName: string,
    start: int,
    end: int,
    strand: Strand,
    featureName: string,
    txnStart: int,
    txnEnd: int,
    exonCount: int,
    exonStarts: seq<int>,
    exonEnds: seq<int>,
    cdsStart: Option<int>,
    cdsEnd: Option<int>,
    geneName: string,
    aliases: string,
    description: string)

  /** The exceptions that stop feature_parser.__init__. */
  datatype Error =
    | MissingColumn(column: nat)              // IndexError on the split line
    | NotAnInteger(column: nat, text: string) // ValueError from int()
    | CdsEndMissing                           // TypeError from sorted([int, None])
    | ExonCountMismatch                       // AssertionError "Exons improperly defined"
    | StrandUnbound(strand: string)           // the oriented exon lists were never assigned

  /** What every parsed record satisfies: each exon column names at least one coordinate. */
  predicate Parsed(r: Record)
  {
    |r.exonStarts| >= 1 && |r.exonEnds| >= 1
  }

  function Column(fields: seq<string>, k: nat): (res: Result<string, Error>)
    ensures res.Success? <==> k < |fields|
    ensures res.Success? ==> res.value == fields[k]
    ensures res.Failure? ==> res.error == MissingColumn(k)
  {
    if k < |fields| then Success(fields[k]) else Failure(MissingColumn(k))
  }

  /** int(text) for column k. */
  function ToInt(text: string, k: nat): Result<int, Error>
  {
    match ParseInt(text)
    case Some(n) => Success(n)
    case None => Failure(NotAnInteger(k, text))
  }

  function IntColumn(fields: seq<string>, k: nat): Result<int, Error>
  {
    var text :- Column(fields, k);
    ToInt(text, k)
  }

  /** list(map(int, pieces)): the first piece that is not a number raises. */
  function IntList(pieces: seq<string>, k: nat): (res: Result<seq<int>, Error>)
    ensures res.Success? ==> |res.value| == |pieces|
  {
    if pieces == [] then Success([])
    else
      var n :- ToInt(pieces[0], k);
      var rest :- IntList(pieces[1..], k);
      Success([n] + rest)
  }

  /** A pipe-delimited list of coordinates. */
  function IntListColumn(fields: seq<string>, k: nat): Result<seq<int>, Error>
  {
    var text :- Column(fields, k);
    IntList(Split(text, '|'), k)
  }

  /** A CDS column: blank is None, anything else goes through int(). */
  function OptionalIntColumn(fields: seq<string>, k: nat): Result<Option<int>, Error>
  {
    var text :- Column(fields, k);
    if text == "" then Success(None)
    else
      var n :- ToInt(text, k);
      Success(Some(n))
  }

  /** The column list feature_parser.__init__ builds from one line. */
  function ParseRecord(line: string): (res: Result<Record, Error>)
    ensures res.Success? ==> Parsed(res.value)
  {
    ParseFields(Split(RStrip(line), '\t'))
  }

  /** The fifteen columns read in order; a split line always has column 0. */
  function ParseFields(fields: seq<string>): (res: Result<Record, Error>)
    requires |fields| >= 1
    ensures res.Success? ==> Parsed(res.value)
  {
    var seqName := fields[SEQ_NAME];
    var start :- IntColumn(fields, START);
    var end :- IntColumn(fields, END);
    var strand :- Column(fields, STRAND);
    var featureName :- Column(fields, FEATURE_NAME);
    var txnStart :- IntColumn(fields, TXN_START);
    var txnEnd :- IntColumn(fields, TXN_END);
    var exonCount :- IntColumn(fields, EXON_COUNT);
    var exonStarts :- IntListColumn(fields, EXON_STARTS);
    var exonEnds :- IntListColumn(fields, EXON_ENDS);
    var cdsStart :- OptionalIntColumn(fields, CDS_START);
    var cdsEnd :- OptionalIntColumn(fields, CDS_END);
    var geneName :- Column(fields, GENE_NAME);
    var aliases :- Column(fields, ALIASES);
    var description :- Column(fields, DESCRIPTION);
    Success(Record(seqName, start, end, StrandOf(strand), featureName, txnStart, txnEnd,
                   exonCount, exonStarts, exonEnds, cdsStart, cdsEnd, geneName, aliases,
                   description))
  }

  // ---------------------------------------------------------------------
  // Writing a record back as a MochiView row
  // ---------------------------------------------------------------------

  function IntsText(xs: seq<int>): string
  {
    Join(seq(|xs|, i requires 0 <= i < |xs| => IntToString(xs[i])), '|')
  }

  function OptionalIntText(x: Option<int>): string
  {
    match x
    case None => ""
    case Some(n) => IntToString(n)
  }

  /** The fifteen columns of a row that describes r. */
  function Columns(r: Record): (cols: seq<string>)
    ensures |cols| == 15
  {
    [r.seqName, IntToString(r.start), IntToString(r.end), StrandText(r.strand), r.featureName,
     IntToString(r.txnStart), IntToString(r.txnEnd), IntToString(r.exonCount),
     IntsText(r.exonStarts), IntsText(r.exonEnds), OptionalIntText(r.cdsStart),
     OptionalIntText(r.cdsEnd), r.geneName, r.aliases, r.description]
  }

  function FormatRecord(r: Record): string
  {
    Join(Columns(r), '\t')
  }

  /** A record every column of which survives being written on one line. */
  predicate Writable(r: Record)
  {
    && Parsed(r)
    && (r.strand.Other? ==> r.strand.text != "+" && r.strand.text != "-")
    && '\t' !in r.seqName && '\t' !in StrandText(r.strand) && '\t' !in r.featureName
    && '\t' !in r.geneName && '\t' !in r.aliases && '\t' !in r.description
  }

  lemma IntToStringChars(n: int)
    ensures IntToString(n) != ""
    ensures forall c | c in IntToString(n) :: c == '-' || IsDigit(c)
  {
    var s := NatToString(if n < 0 then -n else n);
    assert forall c | c in s :: IsDigit(c) by {
      forall c | c in s ensures IsDigit(c) {
        var i :| 0 <= i < |s| && s[i] == c;
      }
    }
  }

  lemma {:induction false} IntListOfStrings(xs: seq<int>, k: nat)
    ensures IntList(seq(|xs|, i requires 0 <= i < |xs| => IntToString(xs[i])), k) == Success(xs)
  {
    var pieces := seq(|xs|, i requires 0 <= i < |xs| => IntToString(xs[i]));
    if xs != [] {
      ParseIntRoundTrip(xs[0]);
      assert pieces[1..] == seq(|xs[1..]|, i requires 0 <= i < |xs[1..]| => IntToString(xs[1..][i]));
      IntListOfStrings(xs[1..], k);
      assert xs == [xs[0]] + xs[1..];
    }
  }

  lemma IntsTextRoundTrip(xs: seq<int>, k: nat)
    requires |xs| >= 1
    ensures '\t' !in IntsText(xs)
    ensures IntList(Split(IntsText(xs), '|'), k) == Success(xs)
  {
    var pieces := seq(|xs|, i requires 0 <= i < |xs| => IntToString(xs[i]));
    forall i | 0 <= i < |pieces| ensures '|' !in pieces[i] && '\t' !in pieces[i] {
      IntToStringChars(xs[i]);
    }
    SplitJoin(pieces, '|');
    IntListOfStrings(xs, k);
    JoinCharsFrom(pieces, '|', '\t');
  }

  lemma {:induction false} JoinEndsWithLast(parts: seq<string>, d: char)
    requires |parts| >= 1
    ensures |Join(parts, d)| >= |parts[|parts| - 1]|
    ensures Join(parts, d)[|Join(parts, d)| - |parts[|parts| - 1]|..] == parts[|parts| - 1]
  {
    if |parts| > 1 {
      JoinEndsWithLast(parts[1..], d);
    }
  }

  lemma OptionalIntRoundTrip(fields: seq<string>, k: nat, x: Option<int>)
    requires k < |fields| && fields[k] == OptionalIntText(x)
    ensures OptionalIntColumn(fields, k) == Success(x)
  {
    if x.Some? {
      IntToStringChars(x.value);
      ParseIntRoundTrip(x.value);
    }
  }

  lemma LineFields(r: Record)
    requires Writable(r)
    requires r.description != "" && !IsSpace(r.description[|r.description| - 1])
    ensures Split(RStrip(FormatRecord(r)), '\t') == Columns(r)
  {
    var cols := Columns(r);
    var line := FormatRecord(r);
    JoinEndsWithLast(cols, '\t');
    assert line[|line| - 1] == r.description[|r.description| - 1];
    assert RStrip(line) == line;
    ColumnsPlain(r);
    SplitJoin(cols, '\t');
  }

  lemma IntColumnOf(fields: seq<string>, k: nat, n: int)
    requires k < |fields| && fields[k] == IntToString(n)
    ensures IntColumn(fields, k) == Success(n)
  {
    ParseIntRoundTrip(n);
  }

  lemma IntListColumnOf(fields: seq<string>, k: nat, xs: seq<int>)
    requires |xs| >= 1 && k < |fields| && fields[k] == IntsText(xs)
    ensures IntListColumn(fields, k) == Success(xs)
  {
    IntsTextRoundTrip(xs, k);
  }

  /**
   * ParseFields, once each column is known to read back as r's: with all
   * fifteen columns it gives r, with the last one missing it raises.
   */
  lemma ParseFieldsOf(fields: seq<string>, r: Record)
    requires 14 <= |fields| <= 15
    requires fields[SEQ_NAME] == r.seqName && StrandOf(fields[STRAND]) == r.strand
    requires fields[FEATURE_NAME] == r.featureName && fields[GENE_NAME] == r.geneName
    requires fields[ALIASES] == r.aliases
    requires |fields| == 15 ==> fields[DESCRIPTION] == r.description
    requires IntColumn(fields, START) == Success(r.start)
    requires IntColumn(fields, END) == Success(r.end)
    requires IntColumn(fields, TXN_START) == Success(r.txnStart)
    requires IntColumn(fields, TXN_END) == Success(r.txnEnd)
    requires IntColumn(fields, EXON_COUNT) == Success(r.exonCount)
    requires IntListColumn(fields, EXON_STARTS) == Success(r.exonStarts)
    requires IntListColumn(fields, EXON_ENDS) == Success(r.exonEnds)
    requires OptionalIntColumn(fields, CDS_START) == Success(r.cdsStart)
    requires OptionalIntColumn(fields, CDS_END) == Success(r.cdsEnd)
    ensures ParseFields(fields) == if |fields| == 15 then Success(r) else Failure(MissingColumn(DESCRIPTION))
  {
  }

  /** The text columns of a written record read back as its fields. */
  lemma TextColumnsReadBack(r: Record, cols: seq<string>)
    requires 14 <= |cols| <= 15 && cols == Columns(r)[..|cols|]
    requires r.strand.Other? ==> r.strand.text != "+" && r.strand.text != "-"
    ensures cols[SEQ_NAME] == r.seqName && StrandOf(cols[STRAND]) == r.strand
    ensures cols[FEATURE_NAME] == r.featureName && cols[GENE_NAME] == r.geneName
    ensures cols[ALIASES] == r.aliases
    ensures |cols| == 15 ==> cols[DESCRIPTION] == r.description
  {
    var all := Columns(r);
    assert cols[SEQ_NAME] == all[SEQ_NAME] && cols[STRAND] == all[STRAND];
    assert cols[FEATURE_NAME] == all[FEATURE_NAME] && cols[GENE_NAME] == all[GENE_NAME];
    assert cols[ALIASES] == all[ALIASES];
    assert StrandOf(StrandText(r.strand)) == r.strand;
  }

  /** The number columns of a written record read back as its fields. */
  lemma NumberColumnsReadBack(r: Record, cols: seq<string>)
    requires 14 <= |cols| <= 15 && cols == Columns(r)[..|cols|]
    ensures IntColumn(cols, START) == Success(r.start)
    ensures IntColumn(cols, END) == Success(r.end)
    ensures IntColumn(cols, TXN_START) == Success(r.txnStart)
    ensures IntColumn(cols, TXN_END) == Success(r.txnEnd)
    ensures IntColumn(cols, EXON_COUNT) == Success(r.exonCount)
  {
    var all := Columns(r);
    assert cols[START] == all[START] && cols[END] == all[END];
    assert cols[TXN_START] == all[TXN_START] && cols[TXN_END] == all[TXN_END];
    assert cols[EXON_COUNT] == all[EXON_COUNT];
    IntColumnOf(cols, START, r.start);
    IntColumnOf(cols, END, r.end);
    IntColumnOf(cols, TXN_START, r.txnStart);
    IntColumnOf(cols, TXN_END, r.txnEnd);
    IntColumnOf(cols, EXON_COUNT, r.exonCount);
  }

  /** The exon and CDS columns of a written record read back as its fields. */
  lemma ListColumnsReadBack(r: Record, cols: seq<string>)
    requires Parsed(r) && 14 <= |cols| <= 15 && cols == Columns(r)[..|cols|]
    ensures IntListColumn(cols, EXON_STARTS) == Success(r.exonStarts)
    ensures IntListColumn(cols, EXON_ENDS) == Success(r.exonEnds)
    ensures OptionalIntColumn(cols, CDS_START) == Success(r.cdsStart)
    ensures OptionalIntColumn(cols, CDS_END) == Success(r.cdsEnd)
  {
    var all := Columns(r);
    assert cols[EXON_STARTS] == all[EXON_STARTS] && cols[EXON_ENDS] == all[EXON_ENDS];
    assert cols[CDS_START] == all[CDS_START] && cols[CDS_END] == all[CDS_END];
    IntListColumnOf(cols, EXON_STARTS, r.exonStarts);
    IntListColumnOf(cols, EXON_ENDS, r.exonEnds);
    OptionalIntRoundTrip(cols, CDS_START, r.cdsStart);
    OptionalIntRoundTrip(cols, CDS_END, r.cdsEnd);
  }

  /** Each of the first columns of a written record reads back as that field of the record. */
  lemma ColumnsReadBack(r: Record, cols: seq<string>)
    requires Parsed(r) && 14 <= |cols| <= 15 && cols == Columns(r)[..|cols|]
    requires r.strand.Other? ==> r.strand.text != "+" && r.strand.text != "-"
    ensures |cols| == 15 ==> ParseFields(cols) == Success(r)
    ensures |cols| == 14 ==> ParseFields(cols) == Failure(MissingColumn(DESCRIPTION))
  {
    TextColumnsReadBack(r, cols);
    NumberColumnsReadBack(r, cols);
    ListColumnsReadBack(r, cols);
    ParseFieldsOf(cols, r);
  }

  lemma NoTabInNumber(n: int)
    ensures '\t' !in IntToString(n)
  {
    IntToStringChars(n);
  }

  lemma NoTabInOptional(x: Option<int>)
    ensures '\t' !in OptionalIntText(x)
  {
    if x.Some? {
      NoTabInNumber(x.value);
    }
  }

  /** No column of a writable record holds a tab. */
  lemma ColumnsPlain(r: Record)
    requires Writable(r)
    ensures forall i | 0 <= i < 15 :: '\t' !in Columns(r)[i]
  {
    NoTabInNumber(r.start);
    NoTabInNumber(r.end);
    NoTabInNumber(r.txnStart);
    NoTabInNumber(r.txnEnd);
    NoTabInNumber(r.exonCount);
    IntsTextRoundTrip(r.exonStarts, EXON_STARTS);
    IntsTextRoundTrip(r.exonEnds, EXON_ENDS);
    NoTabInOptional(r.cdsStart);
    NoTabInOptional(r.cdsEnd);
  }

  lemma {:induction false} JoinSnoc(parts: seq<string>, x: string, d: char)
    requires |parts| >= 1
    ensures Join(parts + [x], d) == Join(parts, d) + [d] + x
  {
    if |parts| > 1 {
      JoinSnoc(parts[1..], x, d);
      assert (parts + [x])[1..] == parts[1..] + [x];
    }
  }

  /**
   * Parsing a written record gives it back, provided its description is not
   * blank and does not end in whitespace (rstrip would eat it).
   */
  lemma ParseFormatted(r: Record)
    requires Writable(r)
    requires r.description != "" && !IsSpace(r.description[|r.description| - 1])
    ensures ParseRecord(FormatRecord(r)) == Success(r)
  {
    LineFields(r);
    assert Columns(r)[..15] == Columns(r);
    ColumnsReadBack(r, Columns(r));
  }

  /** With DESCRIPTION blank, rstrip takes the line back to the first fourteen columns. */
  lemma BlankLineStrip(r: Record)
    requires Writable(r)
    requires r.description == "" && r.aliases != "" && !IsSpace(r.aliases[|r.aliases| - 1])
    ensures RStrip(FormatRecord(r)) == Join(Columns(r)[..14], '\t')
  {
    var cols := Columns(r);
    var first := cols[..14];
    assert cols == first + [""];
    JoinSnoc(first, "", '\t');
    var line := FormatRecord(r);
    var j := Join(first, '\t');
    assert line == j + "\t";
    JoinEndsWithLast(first, '\t');
    assert j[|j| - 1] == r.aliases[|r.aliases| - 1];
    assert line[..|line| - 1] == j;
    assert RStrip(j) == j;
  }

  /**
   * A blank DESCRIPTION is the last thing on the line, so rstrip removes the
   * tab before it and the row is one column short: IndexError.
   */
  lemma BlankDescriptionIsMissing(r: Record)
    requires Writable(r)
    requires r.description == "" && r.aliases != "" && !IsSpace(r.aliases[|r.aliases| - 1])
    ensures ParseRecord(FormatRecord(r)) == Failure(MissingColumn(DESCRIPTION))
  {
    var first := Columns(r)[..14];
    BlankLineStrip(r);
    ColumnsPlain(r);
    assert forall i | 0 <= i < |first| :: '\t' !in first[i];
    SplitJoin(first, '\t');
    ColumnsReadBack(r, first);
  }

  /** Fields whose numeric columns all read, up to where they stop, fail on the first missing column. */
  lemma ShortFieldsMissing(fields: seq<string>)
    requires 1 <= |fields| < 15
    requires START < |fields| ==> IntColumn(fields, START).Success?
    requires END < |fields| ==> IntColumn(fields, END).Success?
    requires TXN_START < |fields| ==> IntColumn(fields, TXN_START).Success?
    requires TXN_END < |fields| ==> IntColumn(fields, TXN_END).Success?
    requires EXON_COUNT < |fields| ==> IntColumn(fields, EXON_COUNT).Success?
    requires EXON_STARTS < |fields| ==> IntListColumn(fields, EXON_STARTS).Success?
    requires EXON_ENDS < |fields| ==> IntListColumn(fields, EXON_ENDS).Success?
    requires CDS_START < |fields| ==> OptionalIntColumn(fields, CDS_START).Success?
    requires CDS_END < |fields| ==> OptionalIntColumn(fields, CDS_END).Success?
    ensures ParseFields(fields) == Failure(MissingColumn(|fields|))
  {
  }

  lemma ShortNumberColumns(r: Record, cols: seq<string>)
    requires |cols| < 15 && cols == Columns(r)[..|cols|]
    ensures START < |cols| ==> IntColumn(cols, START).Success?
    ensures END < |cols| ==> IntColumn(cols, END).Success?
    ensures TXN_START < |cols| ==> IntColumn(cols, TXN_START).Success?
    ensures TXN_END < |cols| ==> IntColumn(cols, TXN_END).Success?
    ensures EXON_COUNT < |cols| ==> IntColumn(cols, EXON_COUNT).Success?
  {
    var n := |cols|;
    var all := Columns(r);
    assert all[START] == IntToString(r.start) && all[END] == IntToString(r.end);
    assert all[TXN_START] == IntToString(r.txnStart) && all[TXN_END] == IntToString(r.txnEnd);
    assert all[EXON_COUNT] == IntToString(r.exonCount);
    assert forall k | 0 <= k < n :: cols[k] == all[k];
    if START < n { IntColumnOf(cols, START, r.start); }
    if END < n { IntColumnOf(cols, END, r.end); }
    if TXN_START < n { IntColumnOf(cols, TXN_START, r.txnStart); }
    if TXN_END < n { IntColumnOf(cols, TXN_END, r.txnEnd); }
    if EXON_COUNT < n { IntColumnOf(cols, EXON_COUNT, r.exonCount); }
  }

  lemma ShortListColumns(r: Record, cols: seq<string>)
    requires Parsed(r) && |cols| < 15 && cols == Columns(r)[..|cols|]
    ensures EXON_STARTS < |cols| ==> IntListColumn(cols, EXON_STARTS).Success?
    ensures EXON_ENDS < |cols| ==> IntListColumn(cols, EXON_ENDS).Success?
    ensures CDS_START < |cols| ==> OptionalIntColumn(cols, CDS_START).Success?
    ensures CDS_END < |cols| ==> OptionalIntColumn(cols, CDS_END).Success?
  {
    var n := |cols|;
    var all := Columns(r);
    assert all[EXON_STARTS] == IntsText(r.exonStarts) && all[EXON_ENDS] == IntsText(r.exonEnds);
    assert all[CDS_START] == OptionalIntText(r.cdsStart) && all[CDS_END] == OptionalIntText(r.cdsEnd);
    assert forall k | 0 <= k < n :: cols[k] == all[k];
    if EXON_STARTS < n { IntListColumnOf(cols, EXON_STARTS, r.exonStarts); }
    if EXON_ENDS < n { IntListColumnOf(cols, EXON_ENDS, r.exonEnds); }
    if CDS_START < n { OptionalIntRoundTrip(cols, CDS_START, r.cdsStart); }
    if CDS_END < n { OptionalIntRoundTrip(cols, CDS_END, r.cdsEnd); }
  }

  /**
   * A row cut short after n columns reads every column it has and then
   * fails on the first one missing: IndexError at column n.
   */
  lemma ShortRowMissing(r: Record, n: nat)
    requires Parsed(r) && 1 <= n < 15
    ensures ParseFields(Columns(r)[..n]) == Failure(MissingColumn(n))
  {
    var cols := Columns(r)[..n];
    ShortNumberColumns(r, cols);
    ShortListColumns(r, cols);
    ShortFieldsMissing(cols);
  }

  /** Fewer than fifteen columns never make a record: some column read raises. */
  lemma ShortFieldsFail(fields: seq<string>)
    requires 1 <= |fields| < 15
    ensures ParseFields(fields).Failure?
  {
  }

  /**
   * A written row with a blank DESCRIPTION never parses: rstrip removes at
   * least the tab before it, whatever the columns before it hold.
   */
  lemma BlankDescriptionFails(r: Record)
    requires Writable(r) && r.description == ""
    ensures ParseRecord(FormatRecord(r)).Failure?
  {
    var cols := Columns(r);
    var first := cols[..14];
    assert cols == first + [""];
    JoinSnoc(first, "", '\t');
    var line := FormatRecord(r);
    var j := Join(first, '\t');
    assert line == j + "\t";
    var stripped := RStrip(line);
    assert IsSpace(line[|line| - 1]);
    assert stripped != line;
    assert stripped <= j;
    ColumnsPlain(r);
    assert forall i | 0 <= i < |first| :: '\t' !in first[i];
    SplitJoin(first, '\t');
    SplitPrefixLength(stripped, j, '\t');
    ShortFieldsFail(Split(stripped, '\t'));
  }
}
