# KidMealHack layout engine in Dafny

This project models the layout-reconstruction engine of KidMealHack, a tool
that turns scanned product labels into text and then asks a language model
about them. The model covers five parts of it.

- **Field association and table merge** (`core/image_processing.py`).
  Field records are built from the contour rectangles of the form's field
  mask. Each field is tied to the last text line whose box one of its
  corners touches, within a horizontal tolerance. The fields are then
  appended to the OCR table.
- **Line grouping** (`filter_dataframe`). Rows below the confidence threshold
  are dropped. The rest are grouped by (block, paragraph, line). Each group
  becomes one line: its tokens in left-to-right order, the geometry of its
  leftmost row, and its field numbers. Lines without text are dropped, and
  the remaining lines are ordered top to bottom.
- **Text emission** (`core/document_generator.py`). Each line is written as
  its tokens joined by spaces, followed by a newline. Pages follow one
  another.
- **Page geometry** (`core/utilities.py`): pixel-to-inch conversion, the
  resolution default, the orientation test, A4 scaling, section setup and
  paragraph insertion.
- **Chat framing** (`llm/utiils.py`). A message is framed with its role
  token, a line break and the end-of-sequence token. A generated token
  stream is consumed up to and including the first end token.

Files:

- `wrappers.dfy`: `Option` and `Result`.
- `sequences.dfy`: filtering, stable sorting, mapping and concatenation of
  sequences, with their lemmas.
- `py_strings.dfy`: Python's `str.strip`, `str.join` and `str.split` for a
  one-character separator.
- `image_processing.dfy`, `line_grouping.dfy`, `document_generator.dfy`,
  `page_geometry.dfy`, `chat_tokens.dfy`: the five parts above.

Representation choices:

- Confidences and thresholds are `real`, and pixel geometry is `int`.
- A missing token or field number (NaN in the table) is `None`.
- The OCR backend, the contour finder, the tokenizer, the token generator
  and the detokenizer are parameters of the model: an OCR table, a
  sequence of rectangles, `tokenize`, `generate` and `piece`.
- Grouping keeps groups in order of first appearance; the table library
  orders them by key. Within a group the rows are sorted by `left`, and
  lines are sorted by `top`. The contracts state sortedness and permutation
  only, so they hold whichever way ties are broken. Group order shows up
  only in how lines with equal `top` are ordered, and the source's
  quicksort leaves that unspecified.
- A field that touches no text line keeps its own placeholder address, so
  it forms a group by itself. Its placeholder text `" "` strips to nothing,
  so that group has no text and is dropped: the field appears on no output
  line (`LineGrouping.UnmatchedFieldDropped`).

## Model

| member | source | states |
|---|---|---|
| ImageProcessing.FieldRecords | core/image_processing.py:89-104 | one record per rectangle, in order; record i has the rectangle's geometry, field number i+1, address (−(i+1), −(i+1), −(i+1)), confidence 90 and text " " |
| ImageProcessing.FieldIdsUnique | core/image_processing.py:90-98 | two different rectangles get different field numbers |
| ImageProcessing.CropFields | core/image_processing.py:89-104 | the append loop builds exactly the field records |
| ImageProcessing.AssignGraphToLine | core/image_processing.py:116-126 | true iff the left or right edge lies in the line's horizontal band widened by the tolerance and the top or bottom edge lies in the line's vertical extent; bounds inclusive |
| ImageProcessing.AssignMonotone | core/image_processing.py:123 | a field that matches a line at some tolerance still matches at any larger tolerance |
| ImageProcessing.NoVerticalTolerance | core/image_processing.py:124 | with both the top and the bottom edge outside the line's vertical extent there is no match, whatever the tolerance |
| ImageProcessing.LastMatch | core/image_processing.py:61-63 | the found row is a text line (level 4) the field touches, and no later row is one; none found means no row is one |
| ImageProcessing.Associate | core/image_processing.py:61-66 | a field after association: moved to the address of the last text line it touches, unchanged when none does |
| ImageProcessing.AssociateAll | core/image_processing.py:61-66 | every field associated, one result per field, in order |
| ImageProcessing.AssociateOnlyMoves | core/image_processing.py:63-66 | association changes only block, paragraph and line number; a field no line touches keeps its placeholder address |
| ImageProcessing.AssociateStep | core/image_processing.py:61-66 | one more OCR row overrides the earlier assignment exactly when the field touches it |
| ImageProcessing.MoveFieldsToLine | core/image_processing.py:62-66 | every field the text line touches takes the line's block, paragraph and line number; every other field is unchanged |
| ImageProcessing.AssociateFields | core/image_processing.py:61-66 | the nested in-place loop leaves every field at the address of the last text line it touches, or unchanged when none does |
| ImageProcessing.MergedLayout | core/image_processing.py:67-69 | the merged table has as many rows as OCR rows and rectangles together: first every OCR row without its level and page number and with no field number, then field record j + 1 after association in place j |
| ImageProcessing.MergedRowKind | core/image_processing.py:67-68 | a merged row without a field number is an OCR row; one with field number n is the n-th field record after association |
| ImageProcessing.ProcessImage | core/image_processing.py:57-71 | resolution from the metadata; the OCR rows without a field number, in order, then the associated field records; nothing lost or duplicated |
| LineGrouping.Kept | core/image_processing.py:28 | a row passes the confidence test iff its confidence is ≤ 0 or ≥ the threshold |
| LineGrouping.ConfFilter | core/image_processing.py:28 | the rows that pass the confidence test, in order; never more rows than the table |
| LineGrouping.ConfFilterCount | core/image_processing.py:28 | a row is kept, as often as it occurs, iff its confidence is ≤ 0 or ≥ the threshold |
| LineGrouping.FieldRecordKept | core/image_processing.py:28 | a field record passes the confidence filter iff the threshold is at most 90 |
| LineGrouping.DistinctKeysCover | core/image_processing.py:31-32 | every row's address appears among the group addresses |
| LineGrouping.RowsWithKeyCount | core/image_processing.py:31-32 | a group holds each row with its address as often as the table does, and no other row |
| LineGrouping.GroupBy | core/image_processing.py:31-32 | one non-empty group per distinct address, holding exactly the rows with that address |
| LineGrouping.GroupByCovers | core/image_processing.py:31-32 | every row's address has its group |
| LineGrouping.GroupByPartition | core/image_processing.py:31-32 | the groups together hold exactly the table's rows, none lost or duplicated |
| LineGrouping.Tokens | core/image_processing.py:33 | one token per row with a non-blank token; each token is non-empty and free of surrounding whitespace |
| LineGrouping.TokensContent | core/image_processing.py:33 | token i is the stripped text of the i-th row with a non-blank token |
| LineGrouping.FieldIds | core/image_processing.py:38 | None iff no row has a field number; otherwise the field numbers in row order |
| LineGrouping.Aggregate | core/image_processing.py:31-38 | text is the stripped non-blank tokens in ascending-left order; field list is None iff no row has a field number, else the numbers in ascending-left order; geometry is that of a row with minimal left |
| LineGrouping.TextIffToken | core/image_processing.py:40 | a line has text iff one of its group's rows has a non-blank token |
| LineGrouping.FilterDataFrame | core/image_processing.py:40-43 | lines sorted by non-decreasing top, and a permutation of the summaries of the groups that have text |
| LineGrouping.OutputLinesHaveText | core/image_processing.py:40 | every output line has at least one token |
| LineGrouping.OutputLines | core/image_processing.py:28-43 | a line is output iff it summarises the kept rows of an address where some kept row has a non-blank token |
| LineGrouping.FieldIdProvenance | core/image_processing.py:38-40 | a field number on an output line belongs to a kept row whose address also holds a kept row with a non-blank token |
| LineGrouping.FieldLineSource | core/image_processing.py:31-40 | an output line listing field number n is the line of a kept row carrying n |
| LineGrouping.FieldIdOnOneLine | core/image_processing.py:31-40 | when only one row carries field number n, at most one output line lists n |
| LineGrouping.FieldLineOnce | core/image_processing.py:31-41 | when only one row carries field number n, the line listing n occurs once in the output |
| LineGrouping.MergedFieldIdUnique | core/image_processing.py:67-68 | in a page's merged table each field number belongs to a single row |
| LineGrouping.PageFieldOnOneLine | core/image_processing.py:31-41 | on a page, a field number is listed by at most one output line, and that line occurs once |
| LineGrouping.FieldRecordBlank | core/image_processing.py:93 | a field record has no token: its text " " strips to nothing |
| LineGrouping.UnmatchedFieldAlone | core/image_processing.py:61-68 | with OCR block numbers non-negative, a field that touches no text line is the only merged row at its placeholder address |
| LineGrouping.UnmatchedFieldAddressBlank | core/image_processing.py:61-68 | with OCR block numbers non-negative, no merged row with a non-blank token shares the address of a field that touches no text line |
| LineGrouping.BlankFieldOffLines | core/image_processing.py:33-40 | a field number whose address holds no row with a non-blank token is on no output line |
| LineGrouping.UnmatchedFieldDropped | core/image_processing.py:33-40 | with OCR block numbers non-negative, a field that touches no text line appears on no output line |
| PyStrings.Strip | core/image_processing.py:33 | the result is a slice of the input, with only whitespace cut from either end and no whitespace left at either end; it is empty iff the input is all whitespace |
| PyStrings.StripIdempotent | core/image_processing.py:33 | stripping twice is stripping once |
| Sequences.SortBy | core/image_processing.py:41 | the result is sorted by the key and a permutation of the input |
| DocumentGenerator.PageText | core/document_generator.py:19-25 | a page's text: each of its lines, tokens joined by spaces, followed by a newline, in order |
| DocumentGenerator.ImageText | core/document_generator.py:16-17 | one page's contribution: its merged table at tolerance 50, filtered at the threshold, as page text |
| DocumentGenerator.OutputText | core/document_generator.py:13-28 | the document's text: the pages' contributions in order |
| DocumentGenerator.GenerateOutputText | core/document_generator.py:13-28 | the output is every page's text, pages in order, each page recognised with tolerance 50 and filtered at the given threshold |
| DocumentGenerator.AppendPageText | core/document_generator.py:18-26 | the output grows by the page's lines in order, each its tokens joined by spaces and ended by a newline; the `found_start` branches coincide |
| DocumentGenerator.OutputTextEmpty | core/document_generator.py:13 | no pages give the empty string |
| DocumentGenerator.OutputTextAppend | core/document_generator.py:15-17 | the text of two page lists concatenated is the concatenation of their texts |
| DocumentGenerator.PageTextAsJoin | core/document_generator.py:19-25 | a page's text is its joined lines, each followed by a newline |
| DocumentGenerator.PageTextLines | core/document_generator.py:19-25 | with no newline inside tokens, splitting a page's text at newlines gives its lines in order, then an empty remainder |
| DocumentGenerator.LineTokensRecovered | core/document_generator.py:21 | with no space inside tokens, splitting a line at spaces gives back its tokens |
| PageGeometry.PixelsToInches | core/utilities.py:7-16 | the length in inches times the resolution is the pixel count |
| PageGeometry.GetDpi | core/utilities.py:26-28 | the first component of the metadata pair, or 300 when the metadata is absent |
| PageGeometry.IsHorizontal | core/utilities.py:88-96 | an image is horizontal iff it is strictly wider than tall |
| PageGeometry.HorizontalAsymmetric | core/utilities.py:96 | an image and its rotation are never both horizontal; a square image is not horizontal |
| PageGeometry.ScaleToA4 | core/utilities.py:79-85 | the factors map the image's width and height in inches onto the A4 width and height, with the two sides swapped for a horizontal image |
| PageGeometry.ScaleToA4Rotation | core/utilities.py:79-85 | rotating the image leaves the factors unchanged |
| PageGeometry.SetSectionParameters | core/utilities.py:41-47 | page size becomes the pixel size over the resolution, all four margins 0, header and footer distances untouched; the same section is returned |
| PageGeometry.AddParagraph | core/utilities.py:60-67 | empty text leaves the document unchanged; otherwise one paragraph is appended with the given text, font size, indent and space before, and space after 0 |
| ChatTokens.RoleTokensDistinct | constant.py:52-56 | the user, bot and system roles have different tokens |
| ChatTokens.PyInsert | llm/utiils.py:27-28 | Python's `list.insert`: one element longer, the new element at the given position or at the end when the position is past it, the elements before it and after it unchanged and in order |
| ChatTokens.MessageTokens | llm/utiils.py:26-29 | the frame built by the two inserts and the append: three tokens longer than the message |
| ChatTokens.MessageTokensShape | llm/utiils.py:26-29 | the framed message is three tokens longer than the message: first token, role token, 13, the rest, end token; an empty message gives role token, 13, end token |
| ChatTokens.FramingRoundTrip | llm/utiils.py:27-29 | the message and the role token are read back from the frame, which ends with the end token |
| ChatTokens.MessageTokensInjective | llm/utiils.py:27-29 | equal frames come from equal messages and roles |
| ChatTokens.GetMessageTokens | llm/utiils.py:25-30 | a known role gives the framed message with its token from the role table; an unknown role is an error |
| ChatTokens.GetSystemTokens | llm/utiils.py:33-35 | the system prompt framed with the system token 1587 |
| ChatTokens.AssistantPrefix | llm/utiils.py:61 | the tokens that open the assistant's turn: begin token, bot token 12435, line break 13 |
| ChatTokens.TakeThroughEos | llm/utiils.py:70-74 | the tokens the generation loop consumes: up to and including the first end token, or the whole stream |
| ChatTokens.TakeThroughEosSpec | llm/utiils.py:70-74 | the consumed tokens are a prefix of the stream with no end token before the last; they end with the end token or are the whole stream, and end with it whenever the stream holds one |
| ChatTokens.TakeThroughFirstEos | llm/utiils.py:70-74 | when the first end token is at position i, the consumed tokens are exactly the first i + 1 |
| ChatTokens.TakeThroughNoEos | llm/utiils.py:70-74 | a stream without an end token is consumed whole |
| ChatTokens.ConsumeUntilEos | llm/utiils.py:70-74 | the context grows by exactly the consumed prefix, and the text is the detokenized prefix |
| ChatTokens.Interact | llm/utiils.py:55-75 | the reply text is generated from system frame, user frame and assistant prefix [bos, 12435, 13], and consumed up to the first end token |
| ChatTokens.Pipeline | llm/utiils.py:94-131 | the JSON reply comes from the extraction prompt followed by the recognised text; the rules reply comes from the whole first exchange, the follow-up frame and a new assistant prefix |

## Left out

- Text recognition (`recognize_text`) is not part of this model: its result, the OCR table, is an input.
- Image processing in `crop_fields` (grey scale, thresholding, morphology, contours) is not part of this model: the bounding rectangles are an input.
- Table-library details: `reset_index`, the key order of groups and how sorts break ties. The contracts state only sortedness and permutation.
- `str(e)` on a token the table library parsed as a number is taken as the identity: tokens are strings.
- PageGeometry.PixelsToInches: `Inches` rounds to whole EMUs in python-docx; the model keeps inches as exact reals.
- Division by a zero resolution or a zero side raises an exception in the source. The model requires these values to be non-zero instead.
- The image metadata lookup is an optional pair, and the rest of PIL is not part of this model.
- Language-model plumbing is not modelled: model construction, sampling parameters, `model.eval`, UTF-8 decoding of detokenized bytes, and `parse_json_string`. The generator is a function from context to a finite token stream. A generator that never yields the end token is cut off where its stream ends.
- The prompt texts of `constant.py` are parameters.
- Default argument values (threshold 25, tolerance 50) are not separate constants: every operation takes them as parameters, and the text generator passes tolerance 50 as `DocumentGenerator.GeneratorShift`.
- mistral.py, mistral_pipeline.py, conversation_pipeline.py, example_llm.py, core/document_conversion.py and core/pdf2docxWithoutOcr.py are script glue and library wrappers; they are not part of this model.
