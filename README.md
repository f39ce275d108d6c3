# Drill-hole file analysis: a verified model of its deterministic core

The system classifies geological drill-hole CSV files (Collar, Survey, Assay,
Lithology and Density tables) with a pipeline of language-model stages, and
then turns the stages' free-text answers into structured data. For each file:

- one stage names the file type;
- a second stage names the columns that hold the standard fields: hole id,
  coordinates, dip, azimuth, depth, from/to intervals, grades, density and
  lithology.

The program then parses both answers, looks up the per-type column heuristics,
correlates column names across files, and flattens everything into summary
rows for a web interface. A small ledger records how many tokens each request
used and what it cost.

This project models the deterministic parts of that pipeline in Dafny and
proves what they promise:

- `FileTypeDetection`: `extract_file_type_from_result`. It reads a labelled
  word first and falls back to a scan of the known types in list order.
- `ColumnParser`, on top of the hand-written scanners in `Text` and
  `ColumnScan`: `parse_column_identification_result`.
  - Each `re.search` the source uses becomes a first-occurrence scan with
    ASCII case folding, whose backtracking is worked out by hand.
  - `ParseSpec` is the functional specification. `ParseColumnIdentification`
    is the slot-by-slot method with its break-on-first-match loops.
  - `ColumnParserFacts` holds the round trips and the edge cases.
  - `ColumnNames` shows that no column name the parser reads holds a space,
    except in a bracketed grade list.
- `Heuristics`: the case-insensitive required-columns lookup, and the merge
  and first-occurrence de-duplication of `extract_column_info_from_heuristics`.
- `PromptSelection`: what the column-identification prompt selects. This
  covers:
  - the truncations of the column lists;
  - which output-format lines are asked for, and in what order;
  - the fallback line list;
  - the cross-reference filter;
  - the exact-case key test for the column guide.
- `CrossFile`: the common-columns map built across analysed files.
- `Summary` and `SummaryFacts`: `get_relevant_fields_for_file_type` and
  `format_consolidated_summary_json`.
  - `SummaryRows` is the functional specification. `FormatSummaryJson` is the
    loop that appends rows and grows the identified-column set.
- `Fingerprint`: the per-column statistics rule of `analyze_csv_structure`,
  with a column as a sequence of optional cells, and `estimate_tokens`.
- `TokenUsage`: the usage ledger of `token_tracker.py`.
  - The persisted statistics file is the `store` field of the class
    `UsageLedger`.
  - `AddUsage` updates it step by step.
  - `ResetStats` deletes it.

Timestamps are parameters. Whether the save succeeded is also a parameter.
Costs are exact reals.

Where the code and the written description of the system differ, the model
follows the code. Four places matter:

- An original column that occurs twice in a file's column list gets two
  marker rows (`SummaryFacts.DuplicateColumnMarkedTwice`). It does not get
  exactly one.
- A relevant field whose slot stayed empty in a non-empty parse is shown as
  `"None"`, with an empty comment, and `"None"` is added to the identified
  columns (`SummaryFacts.EmptySlotShowsNone`).
- A field row shows `"NOT FOUND"`, and so gets the comment `"Not identified"`
  from the formatter, only when the column stage's text was empty. For empty
  text every field row does (`SummaryFacts.EmptyTextClaimsNothing`); for
  non-empty text none does (`SummaryFacts.NonEmptyTextFindsEveryField`),
  because every column name the parser reads holds no space and the grade
  list drops any item that mentions NOT FOUND.
- A comment is read after the first dash that follows a label, even when
  that dash is part of the column name. `HOLE NAME: Hole-ID - unique` gives
  the column `Hole-ID` but the comment `ID - unique`
  (`ColumnParserFacts.DashInColumnSplitsComment`).

## Model

| member | source | states |
|---|---|---|
| Text.LowerStr | crewai_test.py:305 | the lower-case form keeps the length and folds each character on its own |
| Text.UpperStr | crewai_test.py:736 | the upper-case form keeps the length and folds each character on its own |
| Text.FirstWhere | crewai_test.py:306-308 | the result is the first index in the range that satisfies the test, or none satisfies it |
| Text.RunEnd | crewai_test.py:733 | a greedy character-class run: every character in it is in the class, and the next one is not |
| Text.SkipSpace | crewai_test.py:733 | `\s*` stops at the first non-whitespace character |
| Text.LineEnd | crewai_test.py:739 | the lazy group ends at the first line break or at the end of the text |
| Text.StripSlice | crewai_test.py:735 | `strip()` returns a slice of the input; everything removed before and after it is whitespace; it has no whitespace at either end; it is empty exactly for all-whitespace text |
| Text.StripBySlice | crewai_test.py:791 | `strip(chars)` returns a slice of the input; everything removed before and after it is a stripped character; it has none at either end; it is empty exactly when every character is stripped |
| Text.StripNoEdgeSpace | crewai_test.py:741 | stripping text with clean ends changes nothing |
| Text.Split | crewai_test.py:791 | no piece of `split(sep)` contains the separator, and there is at least one piece |
| Text.SplitKeepsOut | crewai_test.py:796 | a character missing from the text is missing from every piece of `split(sep)` |
| Text.StripKeepsOut | crewai_test.py:796 | `strip()` brings in no character the text lacks |
| Text.JoinSplit | crewai_test.py:791 | joining the pieces of a split with the same separator gives the text back |
| Text.ContainsUpperSlice | crewai_test.py:791 | a case-insensitive occurrence inside a slice is also one in the whole text |
| Text.MatchesFromChar | crewai_test.py:733 | where a pattern matches ignoring case, each of its characters agrees with the text up to case |
| Text.MatchesShrinkFrom | crewai_test.py:733 | a match that lies inside a prefix of the text is a match in that prefix too |
| Text.MatchesShiftFrom | crewai_test.py:299 | a case-insensitive match inside a piece of text stays a match wherever that piece is copied |
| Text.NoLabelAt | crewai_test.py:299 | no match of a one-line label starts inside lines that hold none, whatever follows them |
| FileTypeDetection.LabelWordAt | crewai_test.py:299 | a labelled word is a non-empty run of word characters |
| FileTypeDetection.LabelWord | crewai_test.py:299 | the label search fails exactly when no position holds the label followed by a word; otherwise it returns the word at the first position that does, with no match at any earlier position |
| FileTypeDetection.ExtractFileType | crewai_test.py:293-310 | empty text gives no type; a label returns its word verbatim and takes precedence; otherwise the first known type, in list order, whose lower-case form occurs; otherwise none is mentioned |
| FileTypeDetection.FallbackIsFirstInListOrder | crewai_test.py:303-308 | without a label, every known type before the one returned is absent from the text |
| FileTypeDetection.LabelledWordVerbatim | crewai_test.py:299-301 | after lines that hold no label, `FILE TYPE: w` (the label in any case) returns `w` exactly as written, lower case included, whatever follows |
| FileTypeDetection.FirstLabelWord | crewai_test.py:299 | conversely, the labelled word at the first position where the label pattern matches is the word the search returns |
| FileTypeDetection.LabelWordAfter | crewai_test.py:299 | the label in any case, one space and a word, written after any text, yield that word at the label's position |
| FileTypeDetection.LabelOnLaterLine | crewai_test.py:293-310 | `Collar?` on one line and `FILE TYPE: Assay` on the next give `Assay`: the label wins over a type named earlier |
| ColumnScan.LabelEnd | crewai_test.py:733 | a label match ends after its start and inside the text |
| ColumnScan.TokenAt | crewai_test.py:733 | the value after a label is a non-empty run of `[^\s(]` |
| ColumnScan.FindToken | crewai_test.py:733 | none exactly when no position holds the label followed by a token; otherwise the token at the first position that does, with no match at any earlier position |
| ColumnScan.FindTokenAt | crewai_test.py:733 | conversely, a position that matches with no match before it gives the token found |
| ColumnScan.CommentFromNone | crewai_test.py:739 | the comment after a label's end is absent exactly when no dash follows that can still be followed by a character |
| ColumnScan.CommentAfterShaped | crewai_test.py:739 | the text read after a dash stays on one line and is stripped |
| ColumnScan.CommentFromShaped | crewai_test.py:739 | a comment read after a label's end is single-line and stripped |
| ColumnScan.FindComment | crewai_test.py:739-741 | none exactly when no label occurrence is followed by a usable dash; otherwise the comment read after the first occurrence that is |
| ColumnScan.FindCommentAt | crewai_test.py:739-741 | conversely, the first label occurrence, when a usable dash follows it, gives the comment found |
| ColumnScan.CommentFromFirstDash | crewai_test.py:739 | a comment read after a label's end is read after the first dash that follows it, and that dash is not the last character |
| ColumnScan.CommentAtFirstDash | crewai_test.py:739 | the dash the lazy `.*?-` stops at is the first one after the label's end, and the comment is read after it |
| ColumnScan.FindCommentShaped | crewai_test.py:739-741 | a comment the search finds is single-line and stripped |
| ColumnScan.FirstWholeWord | crewai_test.py:760-764 | the first word of the list, in order, found as a whole word; none when no word of the list occurs |
| ColumnScan.FindFirstWholeWord | crewai_test.py:761-764 | the break-on-first-match loop returns a listed word that occurs, or reports that none does, and agrees with `FirstWholeWord` |
| ColumnScan.AxisStep | crewai_test.py:744 | a coordinate value group is non-empty, made of coordinate characters, and followed by the next axis letter and `=` |
| ColumnScan.CoordTailAt | crewai_test.py:744 | the Y and Z names read from the Y value on are non-empty |
| ColumnScan.CoordAt | crewai_test.py:744 | the combined coordinates pattern at a position yields three non-empty names |
| ColumnScan.FindCoordinates | crewai_test.py:744-748 | none exactly when no label occurrence is followed by `X=` on its line and then the rest of `X=..Y=..Z=..` (which may continue on later lines, since `\s*` crosses line breaks); otherwise the three non-empty names read after the first occurrence that is |
| ColumnScan.CoordFromFirstStart | crewai_test.py:744 | after a label, the names come from the first `X=` start on its line from which the whole pattern matches, and there are none exactly when no such start matches |
| ColumnScan.ToValueAt | crewai_test.py:803 | the TO group is a token |
| ColumnScan.ShrinkFrom | crewai_test.py:803 | backtracking into the FROM group yields a non-empty FROM name and a TO token |
| ColumnScan.IntervalAt | crewai_test.py:803 | the intervals pattern at a position yields a non-empty FROM name and a TO token |
| ColumnScan.FindIntervals | crewai_test.py:803-806 | none exactly when no label occurrence is followed by `FROM=` on its line and then the rest of `FROM=..TO=..` (`TO=` may sit on a later line); otherwise a non-empty FROM name and a TO token read after the first occurrence that is |
| ColumnScan.IntervalFromFirstStart | crewai_test.py:803 | after a label, the names come from the first `FROM=` start on its line from which the whole pattern matches, and there are none exactly when no such start matches |
| ColumnScan.GradeAt | crewai_test.py:787 | the bracketed group is non-empty and holds no `]`; the bare group is a token |
| ColumnScan.FindGrades | crewai_test.py:787-789 | none exactly when no position matches; otherwise the match at the first position that does, with the shape of `GradeAt` |
| ColumnScan.KeepBracketItems | crewai_test.py:791 | no kept bracketed item mentions NOT FOUND in any case, and there are no more items than pieces |
| ColumnScan.BracketValueMentionsLess | crewai_test.py:791 | cleaning a piece cannot introduce NOT FOUND |
| ColumnScan.BracketItemsExactly | crewai_test.py:791 | the bracketed list holds exactly the cleaned values of the pieces that pass the filter |
| ColumnScan.KeepBareItems | crewai_test.py:796 | the bare list holds no empty item |
| ColumnScan.BareItemsExactly | crewai_test.py:796 | the bare list holds exactly the non-blank pieces, stripped |
| ColumnParser.SingleSlot | crewai_test.py:733-741 | a column is found exactly when the first label's token does not read as an absence (`NOT`, or containing `FOUND`); a comment is present only with a column, and it is the comment search's result |
| ColumnParser.DepthSlot | crewai_test.py:832-853 | under `DEPTH (AT):` the slot is filled like a single field, with "Depth measurement" as the default comment; without the label, the first depth word present as a whole word, with that comment; an absence token leaves it empty |
| ColumnParser.FillDepth | crewai_test.py:832-853 | the depth block, with its word loop, computes `DepthSlot` |
| ColumnParser.CoordinatesSlot | crewai_test.py:743-764 | the combined pattern sets all three axes and one comment; otherwise each axis gets the first of its synonyms present as a whole word, and no comment |
| ColumnParser.FillCoordinates | crewai_test.py:743-764 | the coordinates block, with its synonym loops, computes `CoordinatesSlot` |
| ColumnParser.GradesSlot | crewai_test.py:786-800 | no match leaves an empty list and no comment; a match gives the bracketed or bare list, and the comment whenever the label matched |
| ColumnParser.IntervalSlots | crewai_test.py:802-810 | no match leaves both slots empty; a match fills FROM and TO with its two names, and both get the comment search's result, or the empty comment when it fails |
| ColumnParser.ParseSpec | crewai_test.py:714-855 | empty text gives no record (`{}`); any other text gives the record whose slots are as above |
| ColumnParser.ParseColumnIdentification | crewai_test.py:714-855 | the preallocated record filled slot by slot equals `ParseSpec` |
| ColumnParserFacts.LeadingLabelToken | crewai_test.py:733 | after lines that hold no label, a label, one space and a token: that token is read |
| ColumnParserFacts.NoLabelInPrefix | crewai_test.py:733 | no label match starts inside lines that hold no label, whatever follows them |
| ColumnParserFacts.LabelAfter | crewai_test.py:733 | a label written after such lines matches there and ends right after it |
| ColumnParserFacts.CommentAfterDash | crewai_test.py:739 | the first dash after the label's end, then a space and a clean one-line comment that ends the text or is followed by a line break: that comment is read |
| ColumnParserFacts.LeadingLabelComment | crewai_test.py:739-741 | after lines that hold no label, a label, text without a dash, then `- comment` ending the text or its line: that comment is read |
| ColumnParserFacts.DashAfterLabel | crewai_test.py:739 | from the label's end, text without a dash and then `- comment` ending its line gives that comment |
| ColumnParserFacts.SingleFieldRoundTrip | crewai_test.py:733-741 | after lines that hold no label, the line `LABEL: column … - comment`, followed by further lines, reads back as exactly that column and that comment, provided neither the column nor the text before the dash holds a dash and the column does not read as an absence |
| ColumnParserFacts.FieldLineToken | crewai_test.py:733 | such a field line yields its column token |
| ColumnParserFacts.FieldLineComment | crewai_test.py:739-741 | such a field line, with no dash before the comment's own, yields its comment |
| ColumnParserFacts.HoleNameExample | crewai_test.py:733-741 | `HOLE NAME: DHID (confidence: high) - id` followed by a DIP line reads back as column DHID with comment `id` |
| ColumnParserFacts.DipLineHasNoHoleLabel | crewai_test.py:733 | the line `DIP: DIP - angle` holds no hole-name label |
| ColumnParserFacts.HoleNameAfterDipExample | crewai_test.py:733-741 | the same hole-name line, after a DIP line and before an AZIMUTH line, reads back the same way |
| ColumnParserFacts.DashInColumnSplitsComment | crewai_test.py:733-741 | `HOLE NAME: Hole-ID - unique` reads the column `Hole-ID` but the comment `ID - unique`, because the comment starts after the first dash |
| ColumnParserFacts.QuotedNotFoundIsAccepted | crewai_test.py:733-737 | a quoted `"NOT FOUND"` yields the column `"NOT`, which passes the absence test |
| ColumnParserFacts.AbsentTokenLeavesSlotEmpty | crewai_test.py:736 | a token that reads as an absence leaves the slot with no column and no comment |
| ColumnParserFacts.PlainNotFoundIsAbsent | crewai_test.py:767-771 | `DIP: NOT FOUND` leaves the dip slot empty |
| ColumnParserFacts.BareTokenNeverNotFound | crewai_test.py:795 | the bare form's NOT FOUND check can never fire, because a token holds no space |
| ColumnParserFacts.LeadingBareGrade | crewai_test.py:787 | the grade label followed by a token that does not open a bracket takes the bare alternative |
| ColumnParserFacts.BareGradeNotFound | crewai_test.py:787-797 | `GRADE COLUMNS: NOT FOUND` yields the one-column list `["NOT"]` |
| ColumnParserFacts.ProseAtFillsDepth | crewai_test.py:843-853 | without a `DEPTH (AT):` label, a whole-word "at" anywhere fills the depth slot with `AT` |
| ColumnParserFacts.ProseAtExample | crewai_test.py:843-853 | "Hole at top" gets the depth column `AT` |
| ColumnParserFacts.CoordAtLine | crewai_test.py:744 | the line `X=x, Y=y, Z=z` at a position reads back as its three names |
| ColumnParserFacts.CoordinatesRoundTrip | crewai_test.py:744-748 | `COORDINATES: X=x, Y=y, Z=z` at the start reads back as exactly the three names |
| ColumnParserFacts.IntervalAtLine | crewai_test.py:803 | the line `FROM=f, TO=t` at a position reads back as its two names, with no backtracking into FROM |
| ColumnParserFacts.IntervalsRoundTrip | crewai_test.py:803-806 | `DEPTH INTERVALS: FROM=f, TO=t` at the start reads back as exactly the two names |
| ColumnParserFacts.CommentsOnlyOnFoundFields | crewai_test.py:738-741 | in every parsed record, a single-value field has a comment only when it holds a column |
| ColumnNames.TokenSpaceless | crewai_test.py:733 | a `[^\s(]+` token holds no space |
| ColumnNames.ShrinkFromSlice | crewai_test.py:803 | backtracking into the FROM group yields a prefix of the text from the group's start |
| ColumnNames.IntervalNamesSpaceless | crewai_test.py:803 | the FROM name the intervals pattern reads at a position holds no space, and the TO name is a token |
| ColumnNames.AxisValueSpaceless | crewai_test.py:744 | an X or Y group of the coordinates pattern holds no space |
| ColumnNames.LastValueSpaceless | crewai_test.py:744 | the Z group of the coordinates pattern holds no space |
| ColumnNames.CoordNamesSpaceless | crewai_test.py:744 | none of the three names the coordinates pattern reads at a position holds a space |
| ColumnNames.FoundIntervalsSpaceless | crewai_test.py:803-806 | the FROM and TO names of the first intervals match hold no space |
| ColumnNames.FoundCoordinatesSpaceless | crewai_test.py:744-748 | the three names of the first coordinates match hold no space |
| ColumnNames.AxisWordsSpaceless | crewai_test.py:754-758 | no axis synonym holds a space |
| ColumnNames.SingleSlotSpaceless | crewai_test.py:733-741 | a single-value slot holds a token or nothing |
| ColumnNames.DepthSlotSpaceless | crewai_test.py:832-853 | the depth slot holds a token, a depth word or nothing |
| ColumnNames.CoordinatesSlotSpaceless | crewai_test.py:743-764 | each axis holds a name the pattern read, a synonym, or nothing, and none holds a space |
| ColumnNames.IntervalSlotsSpaceless | crewai_test.py:802-810 | the FROM and TO slots hold no space |
| ColumnNames.ParsedColumnsSpaceless | crewai_test.py:733-853 | for non-empty text, every column of the parsed record outside the grade list holds no space |
| Heuristics.GetRequiredColumns | crewai_test.py:313-329 | no heuristics or no type gives nothing; otherwise the columns of the first key that equals the type ignoring case |
| Heuristics.FirstCaseInsensitiveMatch | crewai_test.py:320-323 | the first key that matches ignoring case is the one whose columns are returned |
| Heuristics.UnknownTypeHasNoColumns | crewai_test.py:325-326 | a type that matches no key gives no required columns |
| Heuristics.LookupIgnoresCase | crewai_test.py:321 | two spellings of a type that differ only in case get the same columns |
| Heuristics.AbsorbRanged | crewai_test.py:356-363 | dip and azimuth names are extended; range, validation and type are overwritten when given |
| Heuristics.EntriesStep | crewai_test.py:347-348 | the nested loops visit one file type's entries after another's |
| Heuristics.Dedup | crewai_test.py:404 | `dict.fromkeys` leaves no repetition and keeps exactly the same elements |
| Heuristics.ColumnInfoSpec | crewai_test.py:332-406 | no heuristics gives nothing; otherwise the de-duplication of the field-by-field merge `FieldwiseInfo` of all entries, with every list free of repetitions |
| Heuristics.DedupKeepFirst | crewai_test.py:404 | the loop with a set of seen keys computes `Dedup` |
| Heuristics.DedupRangedField | crewai_test.py:400-404 | a dip or azimuth record, with its lists de-duplicated |
| Heuristics.ExtractColumnInfo | crewai_test.py:332-406 | the loops over types and entries, then the de-duplication, compute `ColumnInfoSpec` |
| Heuristics.AbsorbTypeEntries | crewai_test.py:348-395 | the inner loop over one file type's entries merges them one after another, as `AbsorbEntries` |
| Heuristics.AbsorbEntriesAppend | crewai_test.py:347-395 | merging two runs of entries is merging the first run and then the second, so the per-type loops compose |
| Heuristics.AbsorbEntry | crewai_test.py:349-397 | one step of the `elif` chain, with the loop over `common_names`, computes `Absorb` |
| Heuristics.DedupLists | crewai_test.py:399-404 | the final pass de-duplicates every list of the record |
| Heuristics.Contributed | crewai_test.py:347-397 | the names contributed to a list are exactly those some entry gives it |
| Heuristics.LastGiven | crewai_test.py:347-397 | a scalar is left as it was exactly when no entry gives it; otherwise it is the value of the last entry that does |
| Heuristics.Accumulates | crewai_test.py:347-397 | a list that every entry extends by its contribution ends as its start followed by all the contributions, in order |
| Heuristics.LastWriterWins | crewai_test.py:347-397 | a scalar that every entry may overwrite ends as the last value given, or its start when none is |
| Heuristics.HoleStep | crewai_test.py:349-354 | one entry extends the hole-id names by its own and sets the type and characteristics it gives |
| Heuristics.RangedStep | crewai_test.py:356-372 | one entry extends the dip or azimuth names by its own and sets the range, validation and type it gives |
| Heuristics.AbsorbCoordsAxis | crewai_test.py:374-377 | the loop over `common_names` extends each axis by exactly the names given for it |
| Heuristics.ListsStep | crewai_test.py:379-397 | one entry extends the element and interval lists by exactly what it gives them |
| Heuristics.HoleNamesFieldwise | crewai_test.py:347-350 | the merged hole-id names are every hole-id entry's names, in traversal order |
| Heuristics.HoleKindFieldwise | crewai_test.py:347-352 | the merged hole-id type is the last one given, or empty |
| Heuristics.HoleTraitsFieldwise | crewai_test.py:347-354 | the merged hole-id characteristics are the last given, or empty |
| Heuristics.RangedNamesFieldwise | crewai_test.py:356-366 | the merged dip or azimuth names are every such entry's names, in order |
| Heuristics.RangedFieldwise | crewai_test.py:356-372 | the merged dip or azimuth record is all its names and the last range, validation and type given, or their defaults |
| Heuristics.AxisFieldwise | crewai_test.py:374-377 | each merged coordinate axis is every coordinates entry's names for it, in order |
| Heuristics.CommonFieldwise | crewai_test.py:379-381 | the merged common elements are all those given, in order |
| Heuristics.PatternsFieldwise | crewai_test.py:379-383 | the merged compound patterns are all those given, in order |
| Heuristics.FromFieldwise | crewai_test.py:385-391 | the merged FROM names are all those given, as a dict's names or a list, in order |
| Heuristics.ToFieldwise | crewai_test.py:385-397 | the merged TO names are all those given, in order |
| Heuristics.MergeIsFieldwise | crewai_test.py:347-397 | merging entry by entry gives the field-by-field record `FieldwiseInfo` |
| Heuristics.DedupPrefixStable | crewai_test.py:404 | de-duplicating a prefix gives a prefix of de-duplicating the whole list |
| Heuristics.DedupKeepsDistinct | crewai_test.py:404 | a list without repetitions is left unchanged |
| PromptSelection.FirstN | crewai_test.py:177 | a slice `xs[:n]` is a prefix of length min(n, length) |
| PromptSelection.Details | crewai_test.py:179-180 | one detail line per column shown, in order, holding exactly the first three of its samples (all of them when there are fewer) |
| PromptSelection.FileTypeViewBounds | crewai_test.py:177-181 | the file-type prompt lists exactly the first 15 columns and details exactly the first 8 (all when there are fewer), each with exactly its first three samples |
| PromptSelection.KeepIn | crewai_test.py:426 | the filter keeps exactly the listed columns that have statistics |
| PromptSelection.KeepInAppend | crewai_test.py:426 | filtering keeps the order of the list |
| PromptSelection.StatsColumns | crewai_test.py:419-427 | without statistics there are no lines; otherwise the lines are exactly those of the first 10 columns that have statistics |
| PromptSelection.ColumnTaskView | crewai_test.py:412-427 | every column is listed; exactly the first 10 are detailed, in order, each with exactly its first three samples; the statistics lines are `StatsColumns` |
| PromptSelection.ValueOfFound | crewai_test.py:501-502 | a required key is found exactly when some entry carries it, and its description is that entry's |
| PromptSelection.StepFacts | crewai_test.py:497-603 | each test of the chain adds only its own line, and only when it is selected, keeping the lines in rank order |
| PromptSelection.OutputFormatShape | crewai_test.py:497-606 | the lines asked for are exactly the selected ones, in the fixed order hole_id, dip, azimuth, depth, coordinates (only with `common_names`), element_columns, depth_intervals, lithology_code, density |
| PromptSelection.BuildOutputFormat | crewai_test.py:497-606 | the if-chain computes `OutputFormatSpec` |
| PromptSelection.AppendSurveyFormats | crewai_test.py:501-539 | the hole, dip, azimuth and depth tests each add their line exactly when their key is required, in that order |
| PromptSelection.AppendColumnFormats | crewai_test.py:542-603 | the coordinates, grades, intervals, lithology and density tests each add their line exactly when their key is required, in that order |
| PromptSelection.CrossRef | crewai_test.py:609-615 | the cross-reference keeps exactly the common columns this file has, with their entries |
| PromptSelection.ColumnPromptSpec | crewai_test.py:409-705 | without heuristics, the fixed fallback lines, no guide and no cross-reference; with heuristics, exactly the lines selected by the case-insensitive lookup, in rank order; a guide exactly when the detected type is an exact-case key; the cross-reference is `CrossRef` of the common columns and this file's columns |
| PromptSelection.UnknownTypeAsksNothing | crewai_test.py:433-606 | a type that matches no key asks for no output lines and writes no guide |
| PromptSelection.NothingRequiredAsksNothing | crewai_test.py:497-606 | with no required columns, no output-format line is written |
| PromptSelection.CollarLabelRead | crewai_test.py:299-301 | `FILE TYPE: collar` detects `collar` as written |
| PromptSelection.CollarLookup | crewai_test.py:436-440 | `collar` finds the `Collar` columns ignoring case, but is not an exact key |
| PromptSelection.LowercaseLabelLosesGuide | crewai_test.py:433-501 | a lower-case label still asks for the hole-name line, but gets no column guide |
| PromptSelection.OnlyHoleIdRequired | crewai_test.py:497-606 | required columns holding only a hole identifier ask for the hole-name line alone |
| CrossFile.AllColumnNames | crewai_test.py:1500-1502 | the union holds exactly the names some file has |
| CrossFile.FilesWithHolders | crewai_test.py:1505 | the files holding a column are exactly those whose list contains it, there are no more of them than files, and the list is empty exactly when no file holds the column |
| CrossFile.FilesWithAppend | crewai_test.py:1505 | the holders keep the files' order |
| CrossFile.TwiceWithFirst | crewai_test.py:1505-1506 | with the first file holding the column, a second holder is any holder among the rest |
| CrossFile.TwiceWithoutFirst | crewai_test.py:1505-1506 | without the first file holding the column, both holders are among the rest |
| CrossFile.TwoHolders | crewai_test.py:1505-1506 | at least two files are listed exactly when two distinct files contain the column |
| CrossFile.CommonSpec | crewai_test.py:1497-1510 | empty unless more than one file was analysed; a column is kept exactly when two distinct files contain it, with `count` equal to the number of files listed, at least 2 |
| CrossFile.CommonColumns | crewai_test.py:1497-1510 | the loop over the collected names computes `CommonSpec` |
| CrossFile.CollectColumnNames | crewai_test.py:1500-1502 | the first loop collects exactly the union of every file's column names |
| CrossFile.KeepShared | crewai_test.py:1504-1510 | the second loop keeps exactly the collected names held by more than one file, each with its holders in file order and their count |
| Summary.RelevantFields | crewai_test.py:858-867 | only the five exact-case type names have fields; each starts with hole_id; coordinates only for Collar, grades only for Assay, and from/to together for Assay, Lithology and Density |
| Summary.SingleStep | crewai_test.py:1039-1049 | a relevant single-value field adds one row, and otherwise nothing; rows and claimed columns only grow |
| Summary.CoordStep | crewai_test.py:1051-1079 | relevant coordinates add three rows; rows and claimed columns only grow |
| Summary.GradeStep | crewai_test.py:1141-1152 | grades add one row only when relevant and non-empty |
| Summary.OriginalRows | crewai_test.py:1178-1186 | each marker row names an original column that was not claimed, and every unclaimed column is marked |
| Summary.AddSingleField | crewai_test.py:1039-1049 | the block appends the row and claims the column as `SingleStep` says |
| Summary.AddCoordinates | crewai_test.py:1051-1079 | the block appends three rows and claims each identified axis as `CoordStep` says |
| Summary.AddGrades | crewai_test.py:1141-1152 | the block appends the joined row and claims every grade as `GradeStep` says |
| Summary.AddOriginalColumns | crewai_test.py:1178-1186 | the closing loop appends exactly `OriginalRows` |
| Summary.FormatSummaryJson | crewai_test.py:1022-1188 | the loop over results computes `SummaryRows` |
| Summary.AddResultRows | crewai_test.py:1026-1186 | one pass of the loop appends exactly that result's rows |
| Summary.AddFieldRows | crewai_test.py:1039-1176 | the ten field blocks, in the source's order, compute `FieldRowsSpec` |
| SummaryFacts.FieldRowTitles | crewai_test.py:1039-1176 | a file's standard-field rows carry its type and exactly the titles of that type, in the fixed order; Assay shows Grades only for a non-empty list |
| SummaryFacts.FieldRowChain | crewai_test.py:1039-1176 | the ten blocks produce the titles of the relevant fields, in block order |
| SummaryFacts.TitleChainTable | crewai_test.py:858-867 | for every type, the relevant fields give the expected title table |
| SummaryFacts.AxisRowsSayOk | crewai_test.py:1062-1073 | every Coordinates Y and Z row says "OK", whatever was parsed |
| SummaryFacts.CollarAxisRows | crewai_test.py:1062-1073 | in a Collar file every Y and Z row carries the fixed comment |
| SummaryFacts.EmptyTextClaimsNothing | crewai_test.py:1039-1176 | empty column text shows every field as NOT FOUND, "Not identified" except on Y and Z, and claims no column |
| SummaryFacts.TokenIsNotNotFound | crewai_test.py:1040-1048 | no parsed token equals "NOT FOUND" |
| SummaryFacts.HoleRowNotFoundIffEmptyText | crewai_test.py:1039-1049 | for a known type, the first row is the hole row, and it shows NOT FOUND exactly when the column text is empty |
| SummaryFacts.SpacelessIsNotNotFound | crewai_test.py:1040-1041 | a column without a space is never the formatter's "NOT FOUND" default |
| SummaryFacts.JoinedNotFound | crewai_test.py:1144 | the `", "`-joined grade list reads "NOT FOUND" only when it is one column that does |
| SummaryFacts.BareGradesSpaceless | crewai_test.py:796 | a column of the bare grade form holds no space |
| SummaryFacts.GradeListNeverNotFound | crewai_test.py:786-798 | no column of either grade form reads "NOT FOUND" |
| SummaryFacts.GradesNeverNotFound | crewai_test.py:1141-1146 | the joined grades cell never reads "NOT FOUND" |
| SummaryFacts.NonEmptyParseNeverNotFound | crewai_test.py:733-853 | for non-empty text, no slot of the parsed record and not the joined grade list reads "NOT FOUND" |
| SummaryFacts.SingleStepFinds | crewai_test.py:1039-1049 | a single-value field block adds no "NOT FOUND" row when the record has none |
| SummaryFacts.CoordStepFinds | crewai_test.py:1051-1079 | the coordinates block adds no "NOT FOUND" row when the record has none |
| SummaryFacts.GradeStepFinds | crewai_test.py:1141-1152 | the grades block adds no "NOT FOUND" row when the record has none |
| SummaryFacts.NonEmptyTextFindsEveryField | crewai_test.py:1039-1176 | for non-empty column text, no field row of any file type shows "NOT FOUND", so the formatter never supplies "Not identified" |
| SummaryFacts.HoleRowOf | crewai_test.py:1039-1049 | for a known type the first row is the Hole ID row, shows the parsed value, and says "Not identified" when nothing was identified |
| SummaryFacts.EmptySlotHasNoComment | crewai_test.py:719-730 | a slot left without a column keeps the empty comment it started with |
| SummaryFacts.EmptySlotShowsNone | crewai_test.py:1040-1186 | a relevant empty slot in a non-empty parse shows "None" with an empty comment, and claims "None" |
| SummaryFacts.FieldRowsShowNone | crewai_test.py:1039-1176 | a relevant field whose slot is empty gets a "None" row, and "None" is claimed, whatever the other blocks add |
| SummaryFacts.OriginalRowsAppend | crewai_test.py:1179 | the marker rows follow the original columns' order |
| SummaryFacts.OriginalRowsSnoc | crewai_test.py:1179-1186 | an unclaimed last column adds its marker row after those of the earlier columns |
| SummaryFacts.OriginalRowsAllUnclaimed | crewai_test.py:1179-1186 | with nothing claimed, each original column gets one marker at its own position |
| SummaryFacts.DuplicateColumnMarkedTwice | crewai_test.py:1179-1186 | a column listed twice and left unclaimed is marked twice |
| SummaryFacts.UnknownTypeMarksEveryColumn | crewai_test.py:1027-1186 | a type outside the exact-case table gives no field rows, and every original column is marked, in order |
| SummaryFacts.NoFieldRows | crewai_test.py:867 | a type outside the table produces no rows and claims nothing |
| SummaryFacts.EveryColumnAccountedFor | crewai_test.py:1178-1186 | every original column is either claimed by a field or marked |
| SummaryFacts.ConcatAppend | crewai_test.py:1026 | results are handled one after another |
| SummaryFacts.SummaryRowsAppend | crewai_test.py:1026-1188 | the rows of a batch are the rows of its parts, part after part |
| Summary.SummaryRowsSnoc | crewai_test.py:1026 | the rows of the first i+1 results are those of the first i followed by the rows of result i |
| Fingerprint.EstimateTokens | crewai_test.py:39-43 | missing or empty text gives 0; otherwise a quarter of the length, rounded down |
| Fingerprint.Present | crewai_test.py:91 | the present values are exactly the non-missing cells; none exactly when all cells are missing |
| Fingerprint.Head | crewai_test.py:87 | `head(n)` is a prefix of length min(n, length) |
| Fingerprint.Samples | crewai_test.py:87-88 | the samples are the first three present values, or all of them when there are fewer |
| Fingerprint.Stats | crewai_test.py:91-112 | statistics exist exactly when some cell is present; the total counts the present values and the unique count the distinct ones; categorical needs more than ten present values |
| Fingerprint.DistinctBounds | crewai_test.py:93-94 | there are no more distinct values than values, and at least one when there are any |
| Fingerprint.DistinctSnoc | crewai_test.py:93 | the distinct values of a column grow by the last value's, one value at a time |
| Fingerprint.StatsBounds | crewai_test.py:93-94 | 1 <= unique count <= total count |
| Fingerprint.AllDistinctNotCategorical | crewai_test.py:111 | a column whose present values are all different is never categorical |
| Fingerprint.ConstantColumnCategorical | crewai_test.py:111 | more than ten copies of one value make the column categorical |
| Fingerprint.FewValuesNotCategorical | crewai_test.py:111 | ten present values or fewer are never categorical |
| Fingerprint.CategoricalIsTenthRule | crewai_test.py:111 | in exact arithmetic, categorical means 10 * unique < total and total > 10 |
| TokenUsage.Load | token_tracker.py:40-59 | without a readable store: zero counters, zero cost, the default model, no update time and an empty history; otherwise what is stored |
| TokenUsage.PriceOf | token_tracker.py:71-76 | a model in the table uses its own row, any other model the gpt-3.5-turbo row; prices are positive |
| TokenUsage.UnknownModelPricedAsDefault | token_tracker.py:73-74 | a model outside the table costs exactly what gpt-3.5-turbo costs |
| TokenUsage.CostMonotone | token_tracker.py:76-79 | non-negative token counts cost nothing negative, and more tokens never cost less |
| TokenUsage.RequestEntry | token_tracker.py:99-107 | the caller's fields are merged last and win; the keys are the fixed ones plus the caller's; `total_tokens` is the sum of the counts and `model` the model, unless overridden |
| TokenUsage.KeepLast | token_tracker.py:112-113 | `xs[-n:]` has length min(n, length) and is the list's suffix |
| TokenUsage.ApplyUsageCounters | token_tracker.py:86-93 | the counters grow by exactly the request's tokens, one request and its cost; the model becomes the request's |
| TokenUsage.ApplyUsageHistory | token_tracker.py:99-113 | the history is the last min(old length + 1, 100) entries of the old history with the new entry, and the new entry is last |
| TokenUsage.ApplyUsageConsistent | token_tracker.py:88-113 | recording a request keeps the history within 100 entries and within the request count |
| TokenUsage.ApplyUsageBounded | token_tracker.py:111-113 | the history never exceeds 100 entries, whatever was stored before |
| TokenUsage.CurrentStats | token_tracker.py:118-130 | total tokens is input plus output; the counters, cost, model and update time are copied; the cost per request is 0 without requests, and otherwise the total cost divided by the requests |
| TokenUsage.EmptyStoreReportsZero | token_tracker.py:118-130 | with no store every reported total is zero and the model is the default |
| TokenUsage.UsageLedger.constructor | token_tracker.py:25 | a new ledger has no stats file |
| TokenUsage.UsageLedger.AddUsage | token_tracker.py:81-116 | the returned statistics are the loaded ones updated by the request and stamped; the store holds them exactly when the save succeeded; the history stays within 100 entries and within the request count |
| TokenUsage.UsageLedger.ResetStats | token_tracker.py:132-137 | the store is deleted, and every reported total is zero, with the default model and no update time |

## Left out

- The language-model stages are not part of this model. This covers `create_llm`, the agent and task creators, `Crew.kickoff` and the orchestration in `run_analysis` and `run_analysis_api`. Their answers enter the model as plain text. The validation stage, which may be handed stale stage results, is not modelled.
- Reading CSV files with pandas, listing the data directory and redirecting standard output are not part of this model. A column enters as a sequence of optional cells.
- The Flask API (`api.py`) and the model-availability probe (`check_available_models.py`) are not part of this model.
- The prompt prose is not modelled. Only what the prompts select is: truncations, output-format lines, the fallback list, the cross-reference filter and the guide's key test.
- The column guide's body is not modelled. Only whether a guide is written is.
- The text summary `format_consolidated_summary` is not modelled. It pools identified columns per file type, and it adds the parsed coordinates to its identified columns regardless of relevance, so no original-column row is shown for them. Its coordinate rows themselves appear only when coordinates are relevant. For these reasons it does not agree with the JSON rows.
- The float statistics `uniqueness_ratio` and `value_range`, and the numeric-dtype test, are left out.
- Fingerprint.Stats: `is_categorical` is computed in exact reals. Float rounding makes the source call some boundary columns categorical, such as 3 distinct values out of 30, where `30 * 0.1` exceeds 3. The model does not.
- Fingerprint.EstimateTokens: non-string input, which the source first converts with `str`, is not modelled. Text is `seq<char>`, and length counts characters.
- Case folding and the `\w` class are ASCII only. Whitespace is Python's `str.isspace` set.
- TokenUsage: the stats file's path, reading, writing and deletion are the `store` field. The clock is a parameter (the request and save timestamps). A failed save is a parameter (`saved`).
- TokenUsage.CalculateCost, TokenUsage.CurrentStats: costs are exact reals. Float arithmetic and `round(…, 6)` are not modelled.
- TokenUsage.Load: a stats file that parses as JSON but lacks a key makes the source fail later with a `KeyError`. The model's store always holds complete statistics.
- TokenUsage.RequestEntry: the key order of the JSON entry is not modelled, because an entry is a map.
- PromptSelection.CrossRef: the cross-reference lines are a map, so the order in which the source iterates over common columns is not modelled.
- Heuristics: a required-columns value that is not a dict where the prompt builder indexes it (a crash in the source) is not modelled for the prompt. The merge handles such values as the source does, by skipping them.
- CrossFile: the duplicate of the common-columns block in `run_analysis` (crewai_test.py:1296-1311) is the same computation and is not modelled separately.
