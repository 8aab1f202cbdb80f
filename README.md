# mochiview2gff: the feature parser, modelled in Dafny

`mochiview2gff.py` converts a MochiView gene table into GFF3. Its core is the
class `feature_parser`. The constructor reads one tab-separated gene row of
fifteen columns:

- SEQ_NAME, START, END, STRAND, FEATURE_NAME;
- TXN_START, TXN_END;
- EXON_COUNT, EXON_STARTS, EXON_ENDS;
- CDS_START, CDS_END;
- GENE_NAME, ALIASES, DESCRIPTION.

From that row it appends GFF3 feature tuples to `self.features`, in this order:

1. the gene;
2. the transcript: an mRNA when CDS_START is given, an RNA otherwise;
3. one exon per index, oriented and numbered by strand;
4. the CDS: one span for a single exon, otherwise one segment clipped to each overlapping exon;
5. an upstream UTR and a downstream UTR, whose SO types and IDs swap with the strand.

Column 9 is a dict rendered by `_join_attributes`. Its Note is the
DESCRIPTION escaped by `_escape_text`, which is percent-encoding as in
section 2.1 of RFC 3986. `__str__` joins each feature's nine columns with
tabs and the features with newlines.

Modules:

- `Wrappers`: `Option`, and `Result` with failure propagation.
- `Text`: the Python built-ins the converter uses, with their round trips:
  - `str.split` and `str.join`;
  - `str.rstrip()`;
  - `int()` and `str()`;
  - `hex()` and `zfill()`.
- `Escape`: `_escape_text`.
  - `BuildTable` is the loop that fills the table. It is proved to hold exactly the reserved characters, each mapped to its `Code`.
  - `Translate` is the lookup join over that table.
  - `EscapeText` builds the table and translates. It is proved equal to the function `Escaped`, and `PercentDecode` is its inverse.
- `Attributes`: the insertion-ordered dict, as a sequence of key/value pairs.
  - `Put` is `d[k] = v`.
  - `JoinAttributes` is `_join_attributes`.
  - `ParseAttributes` reads column 9 back.
- `Records`: reading a line into a `Record`.
  - Every exception the reading can raise is an `Error` value.
  - `FormatRecord` writes a record back, so that the reading can be stated as a round trip.
- `Expander`: the whole constructor as one function, `Expand`. It returns the feature list, or the exception the constructor stops with.
- `FeatureParser`: the constructor written as the source writes it. Methods append to the features list step by step, with loops over the exons. Each is proved equal to the matching part of `Expand`. It also holds `__str__` (`Render`) and its read-back.
- `ExpanderProperties`: what the converter promises about its output, proved for every row:
  - the order and types of the lines;
  - the columns every line shares;
  - exon orientation and numbering;
  - CDS clipping;
  - UTR spans and types;
  - the column 9 layouts;
  - the failure conditions.

The source's quirks are modelled as written:

- Name comes before ID in column 9.
- The loop's control codes are lower-case hex; the fixed table's codes are upper-case.
- The CDS end clip compares against the already-clipped start.
- The overlap test is strict on both sides.
- Once the row is read, a blank CDS_START makes `Expand` ignore CDS_END. Reading the line still runs `int()` on a non-blank CDS_END, so a non-numeric one fails the row even then.
- The phase of every CDS line is 0.
- Exon columns and TXN_START/TXN_END are used in the order given, never sorted.

## Model

| member | source | states |
|---|---|---|
| Text.Split | mochiview2gff.py:228 | `str.split` gives at least one piece; no piece holds the separator; every character of a piece comes from the input |
| Text.JoinSplit | mochiview2gff.py:277 | joining the pieces of a split with the same separator gives the string back |
| Text.SplitJoin | mochiview2gff.py:228 | splitting a join of separator-free pieces gives the pieces back |
| Text.JoinSplitIsReplace | mochiview2gff.py:277 | rejoining the pipe-split ALIASES with ',' replaces every pipe by ',' and changes nothing else |
| Text.RStrip | mochiview2gff.py:227 | `rstrip()` keeps a prefix that does not end in whitespace and drops only whitespace |
| Text.ParseIntRoundTrip | mochiview2gff.py:231-241 | `int(str(n)) == n` for every integer |
| Text.NatToStringInjective | mochiview2gff.py:309-311 | `str` of two naturals is equal exactly when the numbers are |
| Text.ZFillLowerHex | mochiview2gff.py:464 | `hex(i)[2:].zfill(2)` is the two lower-case hex digits of i, for i below 256 |
| Escape.Code | mochiview2gff.py:448-464 | every table entry is '%' and two hex digits naming the character's code point; lower-case for code points 0-32, upper-case for the fixed entries |
| Escape.BuildTable | mochiview2gff.py:448-464 | the table holds exactly the thirteen fixed characters and code points 0-32, each mapped to its code |
| Escape.TranslateIsEscaped | mochiview2gff.py:467 | the lookup join with that table is `Escaped` |
| Escape.EscapeText | mochiview2gff.py:448-467 | `_escape_text` returns `Escaped(text)` |
| Escape.DecodeEscaped | mochiview2gff.py:428-467 | percent-decoding the escaped text gives the text back |
| Escape.CodeInjective | mochiview2gff.py:448-464 | distinct reserved characters get distinct codes |
| Escape.EscapedIsSafe | mochiview2gff.py:428-467 | every '%' in the output opens a code of two hex digits, and no other reserved character (tab, newline, control character, ';', '=', ',' …) is left |
| Escape.EscapedLength | mochiview2gff.py:467 | escaping never shortens the text, and keeps its length only when nothing is reserved |
| Escape.EscapedUnchanged | mochiview2gff.py:467 | the text is returned unchanged exactly when it holds no reserved character |
| Escape.ControlExamples | mochiview2gff.py:463-464 | tab, newline and space become %09, %0a and %20; letters pass through |
| Escape.FixedExamples | mochiview2gff.py:448-462 | ';' and ',' become %3B and %2C |
| Attributes.PutSpec | mochiview2gff.py:275-278 | after `d[k] = v`, k maps to v, every other key keeps its value, and a new key goes last while an existing key keeps its place |
| Attributes.PutAbsent | mochiview2gff.py:276 | setting a key the dict lacks appends the pair |
| Attributes.JoinAttributes | mochiview2gff.py:469-473 | `_join_attributes` returns the `key=value` pairs in insertion order joined by ';' |
| Attributes.ParseJoined | mochiview2gff.py:469-473 | for keys without '=' or ';' and values without ';', splitting the column back gives the same pairs in the same order |
| Records.StrandOf | mochiview2gff.py:259-264 | only "+" and "-" are strands the converter knows; any other text is kept as written |
| Records.StrandRoundTrip | mochiview2gff.py:233 | the strand column is written back into every feature exactly as it was read |
| Records.ShortRowMissing | mochiview2gff.py:229-245 | a row cut short after n of its fifteen columns reads every column it has and then fails with IndexError at column n |
| Records.ParseRecord | mochiview2gff.py:226-245 | a line that parses gives a record whose exon lists are non-empty |
| Records.IntsTextRoundTrip | mochiview2gff.py:238-239 | a pipe-joined exon list parses back to the same integers |
| Records.OptionalIntRoundTrip | mochiview2gff.py:240-241 | a blank CDS column reads as None, a number as itself |
| Records.ColumnsReadBack | mochiview2gff.py:229-245 | fifteen written columns parse back to the record; fourteen fail on the DESCRIPTION column |
| Records.ParseFormatted | mochiview2gff.py:226-245 | a written row whose DESCRIPTION does not end in whitespace parses back to the same record |
| Records.BlankDescriptionFails | mochiview2gff.py:227-245 | every written row with a blank DESCRIPTION fails to parse, because `rstrip()` removes at least the tab before it |
| Records.BlankDescriptionIsMissing | mochiview2gff.py:227-245 | when ALIASES is not blank and does not end in whitespace, such a row fails exactly at the DESCRIPTION column |
| Expander.Expand | mochiview2gff.py:247-426 | the reference for the constructor after the row is read: the gene, transcript, exon, CDS and UTR lines in order, or the exception it stops with; its properties are the ExpanderProperties lemmas |
| Expander.Convert | mochiview2gff.py:208-426 | the reference for the whole constructor: read the row, then `Expand` |
| FeatureParser.Construct | mochiview2gff.py:208-426 | the constructor gives the feature list `Convert(line, source)`, or the error that stops it |
| FeatureParser.Append | mochiview2gff.py:247-426 | the appends, in the constructor's order and with its checks, give `Expand(record, source)` |
| FeatureParser.GeneAndTranscript | mochiview2gff.py:266-295 | the first two appends are the gene and the transcript lines |
| FeatureParser.AppendExons | mochiview2gff.py:297-314 | the exon loop appends exactly the exon lines, in index order |
| FeatureParser.ChildLine | mochiview2gff.py:301-314 | a child line carries the record's columns and the attributes Name, ID (name + suffix), Parent |
| FeatureParser.AppendCoding | mochiview2gff.py:316-426 | the coding section appends the CDS lines and then the UTR lines |
| FeatureParser.AppendCds | mochiview2gff.py:317-372 | one CDS over the sorted span for a single exon; otherwise the clipped segment of each overlapping exon, in index order |
| FeatureParser.AppendUtrs | mochiview2gff.py:388-426 | the upstream UTR, then the downstream UTR, each only when its span is non-empty |
| FeatureParser.FeatureColumns | mochiview2gff.py:476 | a feature renders to exactly nine columns |
| FeatureParser.ColumnsPrintable | mochiview2gff.py:476 | a feature whose text fields hold no tab or newline renders to columns without them |
| FeatureParser.RenderReadsBack | mochiview2gff.py:475-476 | `__str__` has one line per feature, and each line splits on tabs back into that feature's nine columns |
| ExpanderProperties.GeneAttributesLayout | mochiview2gff.py:250-278 | the gene's column 9 is Name (when GENE_NAME is not blank), ID, Alias, Note, in that order |
| ExpanderProperties.TranscriptAttributesLayout | mochiview2gff.py:289-293 | the transcript's column 9 is Name (when given), ID = name-T, Parent = name, Alias, Note |
| ExpanderProperties.ChildAttributesLayout | mochiview2gff.py:307-312 | every exon, CDS and UTR carries Name (when given), ID = name + suffix, Parent = name-T, in that order |
| ExpanderProperties.AliasIsReplace | mochiview2gff.py:277 | the Alias is ALIASES with every pipe replaced by ',' |
| ExpanderProperties.NoteRoundTrip | mochiview2gff.py:278 | the gene's and transcript's Note is the escaped DESCRIPTION, it decodes back to the DESCRIPTION, and every '%' in it opens a two-hex-digit code while no other reserved character is left |
| ExpanderProperties.NoSemicolonInNote | mochiview2gff.py:278 | the Note never contains ';' |
| ExpanderProperties.GeneColumnReadsBack | mochiview2gff.py:275-280 | with plain names, the gene's column 9 splits back into its dict |
| ExpanderProperties.TranscriptColumnReadsBack | mochiview2gff.py:289-295 | with plain names, the transcript's column 9 splits back into its dict |
| ExpanderProperties.ChildColumnReadsBack | mochiview2gff.py:307-314 | with plain names, a child's column 9 splits back into its dict |
| ExpanderProperties.Failures | mochiview2gff.py:255-302 | a row fails on a blank CDS_END under a CDS_START, then on an exon count that disagrees with either list, then on a strand other than '+'/'-'; it converts exactly when none applies |
| ExpanderProperties.CdsEndIgnoredWithoutStart | mochiview2gff.py:255-256 | with CDS_START blank, CDS_END has no effect on the result |
| ExpanderProperties.OnlyStrandedRows | mochiview2gff.py:259-264 | every feature of a converted row is on '+' or '-' |
| ExpanderProperties.SharedColumns | mochiview2gff.py:267-274 | every line has the row's seqid, the source, score '.', the row's strand, and phase 0 exactly on CDS lines |
| ExpanderProperties.GeneLine | mochiview2gff.py:266-280 | the first line is the gene over START..END |
| ExpanderProperties.TranscriptLine | mochiview2gff.py:282-295 | the second line is the transcript over TXN_START..TXN_END: an mRNA exactly when CDS_START is given, an RNA exactly when it is blank |
| ExpanderProperties.ExonLinesAt | mochiview2gff.py:297-314 | lines 3 to EXON_COUNT+2 are the exons, in index order |
| ExpanderProperties.ExonLinesOnly | mochiview2gff.py:300-314 | a line is an exon exactly when it lies in that run |
| ExpanderProperties.UtrsLast | mochiview2gff.py:388-426 | no line after a UTR is anything but a UTR |
| ExpanderProperties.FeatureCount | mochiview2gff.py:248-426 | a row becomes between EXON_COUNT+2 and 2*EXON_COUNT+4 lines, exactly EXON_COUNT+2 when non-coding |
| ExpanderProperties.SingleExonCds | mochiview2gff.py:318-329 | with one exon, the fourth line is the only CDS; it spans the two CDS columns in ascending order with ID name-P |
| ExpanderProperties.ExonNumbered | mochiview2gff.py:259-312 | the exon numbered k is the k-th exon of the row, with its start and end swapped on '-' |
| ExpanderProperties.ExonNumbersDistinct | mochiview2gff.py:308-311 | exon numbers lie in 1..EXON_COUNT and no two exons share one |
| ExpanderProperties.ExonIdsDistinct | mochiview2gff.py:308-311 | no two exons share an ID |
| ExpanderProperties.ChildIdOf | mochiview2gff.py:307-312 | a child's ID is name + suffix and its Parent is name-T |
| ExpanderProperties.CdsSegmentsShape | mochiview2gff.py:349-372 | every per-exon segment is a CDS line of the row |
| ExpanderProperties.CdsSegmentsLength | mochiview2gff.py:349-372 | at most one segment per exon |
| ExpanderProperties.CdsSegmentsMembers | mochiview2gff.py:349-372 | a segment is emitted for exactly the exons that overlap the CDS strictly, each clipped to its exon |
| ExpanderProperties.ClipIsIntersection | mochiview2gff.py:354-362 | when CDS start < CDS end, a segment spans the intersection of the exon and the CDS |
| ExpanderProperties.DegenerateCdsRunsToExonEnd | mochiview2gff.py:359-362 | a one-base CDS inside an exon yields a segment running to the exon's end, because the end clip compares against the clipped start |
| ExpanderProperties.TouchingExonSkipped | mochiview2gff.py:350 | an exon ending exactly at the CDS start gets no segment |
| ExpanderProperties.CodingShape | mochiview2gff.py:316-426 | everything after the exons is a CDS or a UTR line of the row |
| ExpanderProperties.UtrSides | mochiview2gff.py:388-426 | each UTR spans TXN_START..cdsStart-1 or cdsEnd+1..TXN_END; a UTR is five-prime exactly when it is upstream on '+' or downstream on '-'; its ID suffix matches its type; each type is present exactly when its span is non-empty |

## Left out

- `main` (argument check, file reading, header skipping, `print`) is I/O. The model starts from one line and a source name.
- Text.ParseInt: `int()` is modelled as an optional sign and ASCII decimal digits. The whitespace, underscores and non-ASCII digits Python also accepts are not modelled.
- Text.RStrip: whitespace is Python's `str.isspace` set, listed code point by code point.
- The exceptions are `Error` values. Their messages are not modelled. A failing constructor yields no parser object, so the lines appended before the failure are discarded.
- `self.features` is the list each method returns and takes, not a field of an object. Nothing else holds a reference to it.
- The attribute dict is a sequence of key/value pairs. `base_attributes.copy()` is plain value passing.
- Expander.Expand: the strand check comes before the exon loop. The source fails at the loop's first read of the oriented lists. This is the same, because a row that passes the exon assertion has at least one exon.
- FeatureParser.RenderReadsBack: stated only for features whose text columns hold no tab or newline. The source does not escape those columns.
- Records.ParseFormatted: stated only for rows whose DESCRIPTION does not end in whitespace. Other rows lose characters to `rstrip()`; with a blank DESCRIPTION the row fails, as Records.BlankDescriptionFails shows.
- Records.BlankDescriptionIsMissing: names the failing column only when ALIASES is not blank and does not end in whitespace. Otherwise `rstrip()` reaches further back, and Records.BlankDescriptionFails states only that the row fails.
- The module docstring and the commented-out code have no behaviour.
