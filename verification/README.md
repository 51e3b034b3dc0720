# PyonFX line layout engine, in Dafny

This project models the per-line pass of PyonFX's subtitle loader: the part
of `Ass.__init__` in `pyonfx/ass_core.py` that takes each parsed event of an
Advanced SubStation Alpha script and turns it into a line. For each line:

- The line's style is resolved by name.
- Its override tags (`{...}` groups) are stripped.
- When the style resolves, the line is measured with the style's font and placed on the
  nine-cell alignment grid.
- The line is then cut into words, karaoke syllables and characters. Each of them
  is measured and, when the script has a positive play resolution, placed: walked
  left to right along the line, or stacked top to bottom in the middle row.
- A last pass groups the lines by style name, sorts each group by start time and
  derives every line's lead-in and lead-out.

Modules, in the order the engine runs:

| module | file | what it holds |
|---|---|---|
| `Common` | common.dfy | `Option`, Python's `isspace` character set, digit runs, `Padding` (prespace, text, postspace) |
| `Records` | records.dfy | script settings, style, event, word, syllable, char, line; `Font` (the font provider as two pure functions); `Box` |
| `Tags` | tags.dfy | `re.sub(r"\{.*?\}", "", raw)` and the chunk splitter over `(\{.*?\})+` runs |
| `Karaoke` | karaoke.dfy | the syllable extractor: `\k`/`\K`/`\ko`/`\kf` markers, hidden syllables, the karaoke clock, inline effects `\-name`, padding |
| `Words` | words.dfy | `re.findall(r"(\s*)([^\s]+)(\s*)", text)` and the word records |
| `Chars` | chars.dfy | one character record per character of each padded syllable (or word) |
| `Layout` | layout.dfy | line placement, the cursor walk, middle-row stacking, the syllable restack of the line box |
| `LeadTimes` | leadtimes.dfy | grouping by style, the stable sort by start time, lead-in and lead-out with the 1000.1 sentinel |
| `Coverage` | coverage.dfy | how the characters of a line cover its stripped text |
| `Engine` | engine.dfy | the per-line pipeline (`LayoutLine`, `BuildLine`) and the whole document (`Document`) |

Coordinates are `real`, times are `int` milliseconds. The font is a parameter
(`Font.extents` gives a text's width and height, `Font.metrics` a style's
ascent, descent and leadings), as are the script settings, the style table
and the `vertical_kanji` switch.

## Behaviour that follows the code

Where a plain reading of the engine's documentation and its code part ways,
the model follows the code:

- Word and character stacking in the middle row (alignments 4–6) does not look
  at `vertical_kanji`. Only syllable stacking needs it (lines 742, 943–947, 1075).
  So in the middle row without vertical kanji the words and characters are
  stacked while the syllables are walked (`Engine.LineSyllablesWalked`).
- Stacked words and characters with alignment 5 are centred on half the play
  width, whatever the margins. Stacked syllables are centred on the line's
  own centre (lines 790–794, 1008–1012, 1112–1116).
- Syllable stacking overwrites the line's width, height and box (lines 985–998).
  That happens only in the middle row with vertical kanji. There the characters
  are stacked too. Their column is centred on half the play height (lines
  1103, 1124–1128), not on the line box. They read only the restacked box's
  left edge (alignment 4, line 1108) or right edge (alignment 6, line 1118).
  Walked characters (alignments 1–3 and 7–9) use the line box as first placed.
- Alignments 7–9 put the top at the vertical margin and 1–3 put the bottom at
  the margin from the foot of the play area (lines 676–702).
- `list.sort` is stable, so lines of one style that start together keep their
  document order (line 1132). `Before` in `LeadTimes` states this order.
- The whitespace between two words belongs to the earlier word. In `Hi there`
  the word `Hi` has postspace 1 and `there` has prespace 0 (line 712).
- The karaoke clock starts at 0, not at the line's start time (line 851).
- The first `\-name` in a syllable's tags names its inline effect. A syllable
  without one inherits the previous syllable's effect, across chunks (lines 871–896).

## Model

| member | source | states |
|---|---|---|
| `Tags.StripTags` | pyonfx/ass_core.py:629 | The stripped text is no longer than the raw text, holds no brace group, and stripping it again changes nothing |
| `Tags.StripUpTo` | pyonfx/ass_core.py:629 | Text before the next brace group survives stripping verbatim |
| `Tags.StripSkipsRun` | pyonfx/ass_core.py:629 | A whole run of adjacent brace groups disappears when stripping |
| `Tags.FindRunStart` | pyonfx/ass_core.py:812-813 | The tag search from the start finds nothing exactly when no group opens, and otherwise finds where the first group opens |
| `Tags.RunTags` | pyonfx/ass_core.py:831-833 | A run's tag string (the run between its outer braces with every `}{` removed) is the concatenation of the groups' inner texts and holds no `}` |
| `Tags.RunStarts` | pyonfx/ass_core.py:812-847 | The run starts begin at the given run. Each next one is where the search from the end of the previous run finds a run, and the search from the end of the last run finds none |
| `Tags.ChunksFollowRuns` | pyonfx/ass_core.py:811-847 | With no run the line is one untagged chunk. Otherwise there is one chunk per run, in order, after the leading untagged chunk when the first run starts past 0. Each chunk's tags are its run's groups' inner texts (the run with `}{` removed), and its text runs from the end of its run to the start of the next run or the end of the line |
| `Tags.Chunks` | pyonfx/ass_core.py:811-847 | There is always at least one chunk. Only the first chunk can lack a word index, and then it has no tags. Which run each tagged chunk comes from is stated by `Tags.ChunksFollowRuns` |
| `Tags.ChunksLeading` | pyonfx/ass_core.py:816-824 | With no group the line is one untagged chunk of the whole raw text. Text before a first group at s > 0 is a leading untagged chunk. The first tagged chunk has word index 0 |
| `Tags.ChunksText` | pyonfx/ass_core.py:811-847 | The chunks' texts, concatenated, are exactly the stripped text of the line |
| `Tags.ChunkWordIndex` | pyonfx/ass_core.py:837-843 | Each tagged chunk's word index is its predecessor's, plus one exactly when the predecessor's text ends in whitespace |
| `Karaoke.MatchKaraoke` | pyonfx/ass_core.py:853-866 | A match splits the tags into pre-tags, a well-formed marker, a maximal non-empty digit run and the rest, which rebuild the tags. Its duration is the digits' decimal value |
| `Karaoke.MatchKaraokeLeftmost` | pyonfx/ass_core.py:853-866 | There is no match exactly when the tags hold no marker, and the tags before the matched marker hold none |
| `Karaoke.PeelRoundTrip` | pyonfx/ass_core.py:862-920 | Writing the peeled marks back before the rest gives the tag string. The rest holds no marker, and there are no marks exactly when there is no marker. Every mark is well formed and takes the whole digit run after its marker: what follows it does not start with a digit |
| `Karaoke.InlineFx` | pyonfx/ass_core.py:871-873 | No effect is found exactly when no `\-` is followed by a non-backslash. Otherwise the name is what follows the leftmost such `\-` (no earlier position matches) up to the next backslash or the end, and is non-empty |
| `Karaoke.SplitPadding` | pyonfx/ass_core.py:898-907 | Prespace, text and postspace cut the chunk's text without losing a character. Whitespace-only text stays whole with no padding. Otherwise the text neither starts nor ends with whitespace |
| `Karaoke.MarkSyllables` | pyonfx/ass_core.py:864-939 | One syllable per marker of a chunk, numbered and timed on from the carried state, with the carried inline effect. Each earlier syllable is hidden; the last takes the trailing tags and the chunk's text |
| `Karaoke.ChunkSyllables` | pyonfx/ass_core.py:856-918 | A chunk with a marker gives as many syllables as it has markers, each made from its own marker and chained to the previous one |
| `Karaoke.Syllables` | pyonfx/ass_core.py:849-860 | There are syllables exactly when the line has chunks and every chunk's tags hold a marker. They are numbered from 0 and timed back to back from clock 0 |
| `Karaoke.SyllableOrigins` | pyonfx/ass_core.py:856-939 | Syllable j comes from a named marker of a named chunk, taking that chunk's word index, the marker's duration, and tags, text and padding as the marker's place decides |
| `Karaoke.SyllablesEnd` | pyonfx/ass_core.py:925-939 | The last syllable ends at the sum of all marker durations, in milliseconds |
| `Words.SplitWordsRoundTrip` | pyonfx/ass_core.py:712-714 | Every word is a non-empty run without whitespace. Only the first has leading space, and every word but the last has trailing space. There are no words exactly when the text is all whitespace; otherwise the padded words rebuild the text with whitespace as spaces |
| `Words.Words` | pyonfx/ass_core.py:708-738 | Words are numbered from 0, timed like the line, and carry the segmenter's prespace, text and postspace |
| `Chars.Pieces` | pyonfx/ass_core.py:1030-1033 | Characters are cut from the syllables when the line has any, and from the words otherwise |
| `Chars.CharsSpec` | pyonfx/ass_core.py:1026-1071 | Character j is numbered j. It is a named character of a named element's padded text, with that element's word index and timing, and its syllable index and position only when the element is a syllable. In order, the characters spell the padded texts |
| `Chars.CharCount` | pyonfx/ass_core.py:1030-1047 | A line has as many characters as its syllables' prespace, text length and postspace add up to. With no syllables, its words' amounts add up to it instead |
| `Coverage.ChunkWidth` | pyonfx/ass_core.py:870-907 | A chunk's syllables are together exactly as wide as its text: hidden syllables are empty and the last holds the whole text |
| `Coverage.KaraokeCharCount` | pyonfx/ass_core.py:1026-1071 | On a karaoke line there is one character per character of the stripped text |
| `Coverage.PlainChars` | pyonfx/ass_core.py:1026-1071 | On a line without syllables the characters spell the stripped text with every whitespace character as a space. All-whitespace text has none |
| `Layout.ColumnOf` | pyonfx/ass_core.py:654-672 | The column is left, centre or right exactly when the alignment is 1, 2 or 0 modulo 3 |
| `Layout.PlaceLine` | pyonfx/ass_core.py:643-702 | There is a box exactly when both play dimensions are positive. It is as wide and tall as the text, its edge or centre is fixed by the margins (the style's when the line's is 0), and its anchor is that edge or centre |
| `Layout.WalkClosedForm` | pyonfx/ass_core.py:743-773 | A walked element starts after the full advance of everything before it plus its own leading space |
| `Layout.WalkOrdered` | pyonfx/ass_core.py:743-773 | With no negative room, walked elements never overlap and none starts before the line's left edge |
| `Layout.WalkPlacement` | pyonfx/ass_core.py:948-974 | Walked elements keep the line's vertical extent and anchor. Each is as wide as its text and anchored by the line's column. The first starts its leading space after the line's left edge, each next one after the previous one's right edge and trailing space |
| `Layout.MaxWidth` | pyonfx/ass_core.py:775-778 | The stacked column's width is an element's width and no element is wider (0 when there are none) |
| `Layout.StackVertical` | pyonfx/ass_core.py:780-806 | Stacked elements touch top to bottom, and the column is centred vertically on half the play height |
| `Layout.StackWithin` | pyonfx/ass_core.py:1098-1128 | Every stacked element lies between the column's top and its bottom |
| `Layout.StackHorizontal` | pyonfx/ass_core.py:781-799 | Stacked elements are as wide and tall as their text, all centred on one vertical axis, and each within half the widest width of it |
| `Layout.Restack` | pyonfx/ass_core.py:982-998 | The restacked line box and the line's new size are as wide as the widest syllable and as tall as all of them. The box is centred vertically on the play area. It keeps its left edge (alignment 4), centre (5) or right edge (otherwise), and its anchor |
| `Layout.RestackContains` | pyonfx/ass_core.py:976-1024 | Syllables stacked against the restacked line lie inside it and are centred on its centre |
| `LeadTimes.Group` | pyonfx/ass_core.py:622-625 | A style's group holds exactly the indices of the lines of that style, in document order |
| `LeadTimes.SortSorted` | pyonfx/ass_core.py:1132 | The insertion sort of a group in document order is sorted by start time, ties in document order |
| `LeadTimes.SortedGroup` | pyonfx/ass_core.py:1131-1132 | The sorted group of a line's style is sorted and holds exactly the lines of that style |
| `LeadTimes.LeadInSpec` | pyonfx/ass_core.py:1134-1138 | The lead-in is the sentinel 1000.1 exactly when no line of the style comes before. Otherwise it is the start less the end of the line right before |
| `LeadTimes.LeadOutSpec` | pyonfx/ass_core.py:1139-1143 | The lead-out is the sentinel exactly when no line of the style comes after. Otherwise it is the next line's start less this line's end |
| `LeadTimes.LeadChain` | pyonfx/ass_core.py:1133-1143 | The gap after a line is the gap before the next line of its style |
| `Engine.LayoutLine` | pyonfx/ass_core.py:631-1128 | A laid-out line has the font's metrics and as many words, syllables and characters as the segmenters give. Each element has a box exactly when the line has one. The size is the measured text's unless the syllables restack the line, then the widest syllable by all heights |
| `Engine.LineWordsWalked` | pyonfx/ass_core.py:741-773 | Outside the middle row, every word of a placed line has a box in the line's band, as wide as the font measures the word. The first starts its leading padding after the line's left edge. Each next one starts the previous one's trailing padding, one spacing and its own leading padding after the previous one's right edge |
| `Engine.LineWordsStacked` | pyonfx/ass_core.py:774-806 | In the middle row, a placed line's words touch top to bottom in a column as tall as all of them, centred on half the play height. With alignment 5 they are centred on half the play width |
| `Engine.LineSyllablesWalked` | pyonfx/ass_core.py:942-974 | Unless the line is in the middle row with vertical kanji, every syllable of a placed line has a box in the line's band, as wide as the font measures the syllable. The first starts its leading padding after the line's left edge. Each next one starts the previous one's trailing padding, one spacing and its own leading padding after the previous one's right edge. This holds in the middle row without vertical kanji too, where the words are stacked |
| `Engine.LineSyllablesStacked` | pyonfx/ass_core.py:976-1024 | With vertical kanji in the middle row, every syllable of a placed line lies inside the line's final box and shares its centre |
| `Engine.LineCharsWalked` | pyonfx/ass_core.py:1074-1096 | Outside the middle row, every character of a placed line has a box in the line's band, as wide as the font measures it alone. The first starts at the line's left edge and each next one exactly one spacing after the previous one's right edge |
| `Engine.LineCharsStacked` | pyonfx/ass_core.py:1097-1128 | In the middle row, a placed line's characters touch top to bottom in a column as tall as all of them, centred on half the play height. With alignment 5 they are centred on half the play width |
| `Engine.WalkedSyllables` | pyonfx/ass_core.py:942-974 | Syllables not stacked keep the line's band and start after the previous syllable's right edge, its trailing padding, one spacing and their own leading padding. Each padding character is a space plus the spacing |
| `Engine.WalkedWords` | pyonfx/ass_core.py:741-773 | Outside the middle row, words keep the line's band and start after the previous word's right edge, its trailing padding, one spacing and their own leading padding. Each padding character is a space plus the spacing |
| `Engine.WalkedChars` | pyonfx/ass_core.py:1074-1096 | Outside the middle row, the first character starts at the line's left edge and each next one exactly one spacing after the previous one's right edge |
| `Engine.StackedWords` | pyonfx/ass_core.py:774-806 | In the middle row words touch top to bottom, centred vertically on the play area and horizontally on one axis, which for alignment 5 is half the play width |
| `Engine.StackedSyllables` | pyonfx/ass_core.py:976-1024 | With vertical kanji in the middle row, syllables sit inside the restacked line box and are centred on its centre, which for alignment 5 is the line's own centre |
| `Engine.StackedChars` | pyonfx/ass_core.py:1097-1128 | In the middle row characters touch top to bottom in a column centred on half the play height. They are centred on one axis, which for alignment 5 is half the play width |
| `Engine.WordsIgnoreVerticalKanji` | pyonfx/ass_core.py:741-806 | The words' layout is the same whether vertical kanji is on or off |
| `Engine.LineCharsCover` | pyonfx/ass_core.py:1026-1071 | A karaoke line has one character per stripped-text character. Any other line has no syllables and its characters spell the stripped text with whitespace as spaces (none when it is all whitespace) |
| `Engine.BuildLine` | pyonfx/ass_core.py:616-640 | A line keeps its event's fields, has the duration end less start and the stripped text, resolves its style exactly when the name is in the table, and then has the layout `LayoutLine` gives the event under that style, so its size, metrics and element boxes are those of the `Line*` lemmas |
| `Engine.DocumentLeadIn` | pyonfx/ass_core.py:1134-1138 | A document line's lead-in is the sentinel exactly when no line of its style comes before it |
| `Engine.DocumentChain` | pyonfx/ass_core.py:1133-1143 | When one line comes right before another of its style, its lead-out equals the other's lead-in, and both are the other's start less its end |

## Left out

- Reading and writing files: the section parser, `save`, `write_line`, the `open_*` helpers, `get_data`, `Line.copy` and `pretty_print`. They are input and output; the model starts from parsed events, styles and settings.
- The `extended=False` early return (lines 611–612): it leaves the lines as parsed.
- Text measurement: `Font` takes the font engine's place as a pure function from style and text to a size, and from style to the four metrics.
- Floating point: coordinates and widths are exact reals. The source's float rounding is not modelled.
- `\d` in the karaoke pattern is modelled as the ASCII digits 0–9. Python also accepts other Unicode decimal digits there and `int()` reads them.
- `.` in the tag patterns does not match a line break. The model treats every character alike, which agrees on event lines because they hold no line break.
- Each word, syllable and character gets a copy of the line's ascent, descent and leadings, and a reference to the line's style. The model stores the metrics once, on the line's layout.
- `Char.inline_fx` is never set by the loader, so characters carry no inline effect.
- `Karaoke.SplitPadding`: Python's `re.match(r"(\s*)(.*?)(\s*)$", text)` fails on a text holding a line break. The model does not reproduce that failure, because event lines hold none.

## Findings

None. Every quirk listed under "Behaviour that follows the code" is modelled as
written.
